/** Runs of the rbull machine from its initial state: writes that flushes wait for, and a timeout that leaves a lock. */
module RbullRuns {
  import opened Common
  import opened RbullProtocol

  // ---- Reachable states ----

  /** The states some run from `s` ends in. */
  ghost function Reach(s: State): iset<State>
    requires Inv(s)
  {
    iset t | exists trace :: Run(s, trace) == Some(t)
  }

  ghost predicate Closed(reach: iset<State>) {
    forall t, step :: t in reach && Enabled(t, step) ==> Apply(t, step) in reach
  }

  lemma {:induction false} RunMore(s: State, trace: seq<Step>, step: Step)
    requires Inv(s) && Run(s, trace).Some? && Enabled(Run(s, trace).value, step)
    ensures Run(s, trace + [step]) == Some(Apply(Run(s, trace).value, step))
    decreases |trace|
  {
    if trace == [] {
      StepKeepsInv(s, step);
      assert trace + [step] == [step] && [step][1..] == [];
    } else {
      StepKeepsInv(s, trace[0]);
      assert (trace + [step])[1..] == trace[1..] + [step];
      RunMore(Apply(s, trace[0]), trace[1..], step);
    }
  }

  lemma ReachIsClosed(s: State)
    requires Inv(s)
    ensures Closed(Reach(s)) && s in Reach(s)
  {
    assert Run(s, []) == Some(s);
    forall t, step | t in Reach(s) && Enabled(t, step) ensures Apply(t, step) in Reach(s) {
      var trace :| Run(s, trace) == Some(t);
      RunMore(s, trace, step);
    }
  }

  /** One request alone, with the lock its own or free. */
  function Alone(q: Req, inflight: int, held: bool): State {
    State([q], inflight, if held && q.job.write then Some(0) else None, if held && !q.job.write then {0} else {})
  }

  /** A step of the only request. */
  lemma AloneStep(reach: iset<State>, q: Req, inflight: int, held: bool, a: Act)
    requires Closed(reach) && Alone(q, inflight, held) in reach
    requires Ready(q, a) && (a.PassFlush? ==> inflight == 0) && (a.Lock? ==> !held)
    ensures var e := ActOn(q, a);
      Alone(e.req, inflight + e.delta, if e.lock.Keep? then held else e.lock.Take?) in reach
  {
    var s, e := Alone(q, inflight, held), ActOn(q, a);
    assert Enabled(s, Do(0, a)) && e.req.job == q.job;
    var r, none: set<nat> := 0 as nat, {};
    assert [q][0 := e.req] == [e.req];
    assert none + {r} == {r} && {r} - {r} == none && none - {r} == none;
    assert Apply(s, Do(0, a)) ==
      Alone(e.req, inflight + e.delta, if e.lock.Keep? then held else e.lock.Take?);
  }

  /** A request at the head of its loop, not aborted and not ended. */
  ghost predicate Underway(q: Req, i: nat) {
    !q.abort && !q.done && q.ended == [] && q.pc == Loop(i) && i <= q.job.fit <= q.job.segs && !q.job.flush
  }

  function Count(q: Req, n: nat): Req {
    if q.job.write then q.(incs := q.incs + n) else q
  }

  function Counts(j: Job, n: nat): nat {
    if j.write then n else 0
  }

  /** A segment is counted, locked, moved and unlocked. */
  lemma OneSegment(reach: iset<State>, q: Req, inflight: int, i: nat)
    requires Closed(reach) && Alone(q, inflight, false) in reach && Underway(q, i) && i < q.job.fit
    ensures var next := NextPc(q.job, Moving(i), false, false);
      Alone(Count(q, 1).(pc := next), inflight + Counts(q.job, 1), false) in reach
  {
    AloneStep(reach, q, inflight, false, Next);
    var counted, k := Count(q, 1).(pc := Counted(i)), inflight + Counts(q.job, 1);
    AloneStep(reach, counted, k, false, Lock);
    AloneStep(reach, counted.(pc := Locked(i)), k, true, Look);
    AloneStep(reach, counted.(pc := Moving(i)), k, true, Move);
  }

  /** A known operation moves all segments that fit. */
  lemma {:induction false} Segments(reach: iset<State>, q: Req, inflight: int, i: nat)
    requires Closed(reach) && Alone(q, inflight, false) in reach && Underway(q, i) && q.job.known
    ensures var n := q.job.fit - i;
      Alone(Count(q, n).(pc := Loop(q.job.fit)), inflight + Counts(q.job, n), false) in reach
    decreases q.job.fit - i
  {
    if i < q.job.fit {
      OneSegment(reach, q, inflight, i);
      Segments(reach, Count(q, 1).(pc := Loop(i + 1)), inflight + Counts(q.job, 1), i + 1);
    }
  }

  lemma Dispatched(reach: iset<State>, q: Req)
    requires Closed(reach) && State([], 0, None, {}) in reach && Fresh(q)
    ensures Alone(q, 0, false) in reach
  {
    assert Enabled(State([], 0, None, {}), Dispatch(q));
    assert [] + [q] == [q];
  }

  /** A dispatch of the job. */
  function FreshOf(j: Job): Req {
    Req(j, Queued, Off, false, false, [], 0, 0)
  }

  /** From the cmpxchg of `done` to the end, nobody else ending the request. */
  lemma Ends(reach: iset<State>, q: Req, inflight: int)
    requires Closed(reach) && Alone(q, inflight, false) in reach && q.pc.Ending? && !q.done && q.ended == []
    ensures var e := q.(pc := Finished(q.pc.exit), done := true, ended := [StatusOf(q.job, q.pc.exit)]);
      Alone(e, inflight, false) in reach
  {
    AloneStep(reach, q, inflight, false, Claim);
    AloneStep(reach, q.(pc := Won(q.pc.exit), done := true), inflight, false, End);
    assert q.ended + [StatusOf(q.job, q.pc.exit)] == [StatusOf(q.job, q.pc.exit)];
  }

  /** From the end of the loop to the end. */
  lemma LeavesLoop(reach: iset<State>, q: Req, inflight: int) returns (e: Req)
    requires Closed(reach) && Alone(q, inflight, false) in reach && q.pc.Uncounting? && !q.done && q.ended == []
    ensures Alone(e, inflight - 1, false) in reach
    ensures e == q.(pc := Finished(Completed(q.pc.i)), done := true, decs := q.decs + 1,
                    ended := [StatusOf(q.job, Completed(q.pc.i))])
  {
    AloneStep(reach, q, inflight, false, Uncount);
    var ending := q.(pc := Ending(Completed(q.pc.i)), decs := q.decs + 1);
    Ends(reach, ending, inflight - 1);
    e := ending.(pc := Finished(Completed(q.pc.i)), done := true, ended := [StatusOf(q.job, Completed(q.pc.i))]);
  }

  /** Where the loop leads once it moves no more segments: on through the decrement, or straight to the end. */
  lemma Concludes(reach: iset<State>, q: Req, inflight: int) returns (e: Req, left: int)
    requires Closed(reach) && Alone(q, inflight, false) in reach && !q.done && q.ended == []
    requires q.pc.Uncounting? || q.pc.Ending?
    ensures Alone(e, left, false) in reach && e.job == q.job && e.timer == q.timer && e.pc.Finished?
    ensures e.pc.exit == if q.pc.Uncounting? then Completed(q.pc.i) else q.pc.exit
    ensures e.ended == [StatusOf(q.job, e.pc.exit)]
  {
    if q.pc.Uncounting? {
      e := LeavesLoop(reach, q, inflight);
      left := inflight - 1;
    } else {
      Ends(reach, q, inflight);
      e := q.(pc := Finished(q.pc.exit), done := true, ended := [StatusOf(q.job, q.pc.exit)]);
      left := inflight;
    }
  }

  lemma LoopConcludes(reach: iset<State>, q: Req, inflight: int) returns (e: Req, left: int)
    requires Closed(reach) && Alone(q, inflight, false) in reach && Underway(q, 0) && JobOk(q.job)
    ensures Alone(e, left, false) in reach && e.job == q.job && e.timer == q.timer && e.pc.Finished?
    ensures e.ended == [Expected(q.job)]
  {
    var j := q.job;
    if j.known || j.fit == 0 || j.segs == 0 {
      if j.known {
        Segments(reach, q, inflight, 0);
      }
      var last, k := Count(q, j.fit).(pc := Loop(j.fit)), inflight + Counts(j, j.fit);
      assert last == q || j.known;
      AloneStep(reach, last, k, false, Next);
      e, left := Concludes(reach, last.(pc := NextPc(j, Loop(j.fit), false, false)), k);
    } else {
      OneSegment(reach, q, inflight, 0);
      var moved := Count(q, 1).(pc := NextPc(j, Moving(0), false, false));
      e, left := Concludes(reach, moved, inflight + Counts(j, 1));
    }
  }

  /** From the beginning any request, by itself and in time, is ended as its job deserves. */
  lemma AnyRequestEnds(reach: iset<State>, j: Job) returns (e: Req, left: int)
    requires Closed(reach) && State([], 0, None, {}) in reach && JobOk(j)
    ensures Alone(e, left, false) in reach && e.job == j && e.timer.Off? && e.pc.Finished?
    ensures e.ended == [Expected(j)]
  {
    var q := FreshOf(j);
    Dispatched(reach, q);
    AloneStep(reach, q, 0, false, Start);
    if j.flush {
      AloneStep(reach, q.(pc := Flushing), 0, false, PassFlush);
      e, left := Concludes(reach, q.(pc := Ending(Flushed)), 0);
    } else {
      e, left := LoopConcludes(reach, q.(pc := Loop(0)), 0);
    }
  }

  function WriteOf(segs: nat): Req {
    FreshOf(Job(false, true, true, segs, segs))
  }

  /** The write of `n` segments after it has ended well by itself. */
  function WriteDone(n: nat): Req {
    Req(Job(false, true, true, n, n), Finished(Completed(n)), Off, true, false, [Ok], n, 1)
  }

  const FLUSH := Req(Job(true, false, true, 0, 0), Queued, Off, false, false, [], 0, 0)

  /** From the beginning a write of any number of segments, by itself, ends well and leaves its segments less one. */
  lemma WriteEndsWell(reach: iset<State>, n: nat)
    requires Closed(reach) && State([], 0, None, {}) in reach && n > 0
    ensures Alone(WriteDone(n), n - 1, false) in reach
  {
    var q := WriteOf(n);
    Dispatched(reach, q);
    AloneStep(reach, q, 0, false, Start);
    Segments(reach, q.(pc := Loop(0)), 0, 0);
    var moved := q.(pc := Loop(n), incs := n);
    AloneStep(reach, moved, n, false, Next);
    var e := LeavesLoop(reach, moved.(pc := Uncounting(n)), n);
  }

  /** A flush arrives and waits. */
  lemma ThenFlush(reach: iset<State>, q: Req, inflight: int)
    requires Closed(reach) && Alone(q, inflight, false) in reach
    ensures State([q, FLUSH.(pc := Flushing)], inflight, None, {}) in reach
  {
    assert Enabled(Alone(q, inflight, false), Dispatch(FLUSH));
    assert [q] + [FLUSH] == [q, FLUSH];
    var s := State([q, FLUSH], inflight, None, {});
    assert s in reach && Enabled(s, Do(1, Start));
    assert [q, FLUSH][1 := FLUSH.(pc := Flushing)] == [q, FLUSH.(pc := Flushing)];
  }

  lemma ReachKeepsInv(s: State, t: State)
    requires Inv(s) && t in Reach(s)
    ensures Inv(t)
  {
    var trace :| Run(s, trace) == Some(t);
  }

  /** A finished write that left something behind stops the flush in every later state. */
  lemma FlushNeverPasses(t: State, later: State)
    requires Inv(t) && |t.reqs| > 0 && AtRest(t.reqs[0]) && Held(t.reqs[0]) > 0 && later in Reach(t)
    ensures !Enabled(later, Do(1, PassFlush))
  {
    var trace :| Run(t, trace) == Some(later);
    SurplusBlocksFlushes(t, trace, 0, 1);
  }

  /** The write of `n` segments done, the flush waiting. */
  function FlushWaits(n: nat): State {
    State([WriteDone(n), FLUSH.(pc := Flushing)], n - 1, None, {})
  }

  lemma FlushWaitsReached(reach: iset<State>, n: nat)
    requires Closed(reach) && State([], 0, None, {}) in reach && n > 0
    ensures FlushWaits(n) in reach
  {
    WriteEndsWell(reach, n);
    ThenFlush(reach, WriteDone(n), n - 1);
  }

  /**
   From the beginning: a write of `n` segments ends with success and a flush comes after it. The flush
   can pass exactly when `n` is one, and otherwise never will.
   */
  lemma WriteThenFlush(s: State, n: nat)
    requires Init(s) && n > 0
    ensures var t := FlushWaits(n);
      && t in Reach(s) && Inv(t)
      && t.reqs[0].ended == [Ok] && t.reqs[0].job.segs == n && t.reqs[1].pc.Flushing?
      && (Enabled(t, Do(1, PassFlush)) <==> n == 1)
      && (n > 1 ==> forall later :: later in Reach(t) ==> !Enabled(later, Do(1, PassFlush)))
  {
    ReachIsClosed(s);
    FlushWaitsReached(Reach(s), n);
    ReachKeepsInv(s, FlushWaits(n));
    forall later | n > 1 && later in Reach(FlushWaits(n)) ensures !Enabled(later, Do(1, PassFlush)) {
      FlushNeverPasses(FlushWaits(n), later);
    }
  }

  /** The write that has timed out before its first segment. */
  const TIMED_OUT := Req(Job(false, true, true, 1, 1), Aborted(0), Over, true, true, [Timeout], 1, 0)

  lemma LeavesByAbort(reach: iset<State>)
    requires Closed(reach) && Alone(WriteOf(1), 0, false) in reach
    ensures Alone(TIMED_OUT.(timer := Raised, done := false, ended := []), 1, true) in reach
  {
    var q := WriteOf(1);
    AloneStep(reach, q, 0, false, Start);
    AloneStep(reach, q.(pc := Loop(0)), 0, false, Fire);
    var late := q.(pc := Loop(0), timer := Raised, abort := true);
    AloneStep(reach, late, 0, false, Next);
    var counted := late.(pc := Counted(0), incs := 1);
    AloneStep(reach, counted, 1, false, Lock);
    AloneStep(reach, counted.(pc := Locked(0)), 1, true, Look);
  }

  lemma TimedOut(reach: iset<State>, q: Req)
    requires Closed(reach) && Alone(q, 1, true) in reach
    requires q.job.write && q.timer.Raised? && !q.done && q.ended == []
    ensures Alone(q.(timer := Over, done := true, ended := [Timeout]), 1, true) in reach
  {
    AloneStep(reach, q, 1, true, TimerClaim);
    AloneStep(reach, q.(timer := TimerWon, done := true), 1, true, TimerEnd);
    assert q.ended + [Timeout] == [Timeout];
  }

  lemma LockStays(t: State, later: State)
    requires Inv(t) && |t.reqs| > 0 && t.reqs[0].pc.Aborted? && t.reqs[0].job.write && later in Reach(t)
    ensures later.writer == Some(0)
  {
    var trace :| Run(t, trace) == Some(later);
    RestStays(t, trace, 0);
    assert HoldsLock(later.reqs[0]);
  }

  lemma TimedOutReached(reach: iset<State>)
    requires Closed(reach) && State([], 0, None, {}) in reach
    ensures Alone(TIMED_OUT, 1, true) in reach
  {
    Dispatched(reach, WriteOf(1));
    LeavesByAbort(reach);
    TimedOut(reach, TIMED_OUT.(timer := Raised, done := false, ended := []));
  }

  /**
   From the beginning: a write times out before its segment, leaves by the abort exit and is ended by
   the timeout handler. It keeps the lock in every later state, and its increment.
   */
  lemma TimeoutKeepsLock(s: State)
    requires Init(s)
    ensures var t := Alone(TIMED_OUT, 1, true);
      && t in Reach(s) && Inv(t) && t.inflight == 1
      && t.reqs[0].pc == Aborted(0) && t.reqs[0].ended == [Timeout]
      && forall later :: later in Reach(t) ==> later.writer == Some(0)
  {
    var t := Alone(TIMED_OUT, 1, true);
    ReachIsClosed(s);
    TimedOutReached(Reach(s));
    ReachKeepsInv(s, t);
    forall later | later in Reach(t) ensures later.writer == Some(0) {
      LockStays(t, later);
    }
  }
}
