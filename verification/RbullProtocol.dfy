/**
 Any number of rbull requests at once, as a state machine with one step per
 atomic operation: workers, timeout handlers, the reader-writer lock and the
 counter that flushes wait on.
 */
module RbullProtocol {
  import opened Common

  datatype Status = Ok | IoError | Timeout

  /**
   What a request asks for: flush or not, `is_write`, whether the `switch` knows the operation,
   and its segments, of which `fit` come before the first that does not fit.
   */
  datatype Job = Job(flush: bool, write: bool, known: bool, segs: nat, fit: nat)

  /** How the segment loop was left. */
  datatype Exit = Flushed | Completed(moved: nat) | Overflowed(moved: nat)

  /** Where the worker stands in `rbull_rq_work`; `i` segments have been moved. */
  datatype PC =
    | Queued
    | Flushing                // in wait_event
    | Loop(i: nat)            // at the head of the loop
    | Counted(i: nat)         // past atomic_inc of a write, going for the lock
    | Locked(i: nat)          // lock taken, about to look at `abort`
    | Moving(i: nat)          // about to move the segment and unlock
    | Uncounting(i: nat)      // a write, past the loop, at atomic_dec_and_test
    | Ending(exit: Exit)      // at the cmpxchg of `done`
    | Won(exit: Exit)         // about to call blk_mq_end_request
    | Finished(exit: Exit)
    | Aborted(i: nat)         // left by the abort exit

  /** Where `rbull_timeout` stands for this request. */
  datatype Timer = Off | Raised | TimerWon | Over

  /** One dispatch of a request. */
  datatype Req = Req(
    job: Job, pc: PC, timer: Timer, done: bool, abort: bool,
    ended: seq<Status>,     // calls of blk_mq_end_request
    incs: nat, decs: nat    // of inflight_writes
  )

  datatype LockUse = Keep | Take | Drop

  /** What one step does: the request afterwards, the change of the counter, the use of the lock. */
  datatype Effect = Effect(req: Req, delta: int, lock: LockUse)

  datatype Act = Start | PassFlush | Next | Lock | Look | Move | Uncount | Claim | End | Fire | TimerClaim | TimerEnd

  function StatusOf(j: Job, e: Exit): Status {
    match e
    case Flushed => Ok
    case Completed(moved) => if j.known || moved == 0 then Ok else IoError
    case Overflowed(_) => IoError
  }

  /** The step can be taken as far as the request itself is concerned. */
  predicate Ready(q: Req, a: Act) {
    match a
    case Start => q.pc.Queued?
    case PassFlush => q.pc.Flushing?
    case Next => q.pc.Loop?
    case Lock => q.pc.Counted?
    case Look => q.pc.Locked?
    case Move => q.pc.Moving?
    case Uncount => q.pc.Uncounting?
    case Claim => q.pc.Ending?
    case End => q.pc.Won?
    case Fire => q.timer.Off? || q.timer.Over?
    case TimerClaim => q.timer.Raised?
    case TimerEnd => q.timer.TimerWon?
  }

  /** The worker's own steps. */
  predicate OfWorker(a: Act) {
    !a.Fire? && !a.TimerClaim? && !a.TimerEnd?
  }

  /** Where a step of the worker leads. */
  function NextPc(j: Job, pc: PC, done: bool, abort: bool): PC {
    match pc
    case Queued => if j.flush then Flushing else Loop(0)
    case Flushing => Ending(Flushed)
    case Loop(i) =>
      if i == j.segs then (if j.write then Uncounting(i) else Ending(Completed(i)))
      else if i == j.fit then Ending(Overflowed(i))
      else Counted(i)
    case Counted(i) => Locked(i)
    case Locked(i) => if abort then Aborted(i) else Moving(i)
    case Moving(i) =>
      if j.known then Loop(i + 1) else if j.write then Uncounting(i + 1) else Ending(Completed(i + 1))
    case Uncounting(i) => Ending(Completed(i))
    case Ending(e) => if done then Finished(e) else Won(e)
    case Won(e) => Finished(e)
    case _ => pc
  }

  function ActOn(q: Req, a: Act): Effect
    requires Ready(q, a)
  {
    var t := if OfWorker(a) then q.(pc := NextPc(q.job, q.pc, q.done, q.abort)) else q;
    match a
    case Next =>
      if q.job.write && t.pc.Counted? then Effect(t.(incs := q.incs + 1), 1, Keep) else Effect(t, 0, Keep)
    case Lock => Effect(t, 0, Take)
    case Move => Effect(t, 0, Drop)
    case Uncount => Effect(t.(decs := q.decs + 1), -1, Keep)
    case Claim => Effect(t.(done := true), 0, Keep)
    case End => Effect(t.(ended := q.ended + [StatusOf(q.job, q.pc.exit)]), 0, Keep)
    case Fire => Effect(t.(timer := Raised, abort := true), 0, Keep)
    case TimerClaim => Effect(t.(timer := if q.done then Over else TimerWon, done := true), 0, Keep)
    case TimerEnd => Effect(t.(timer := Over, ended := q.ended + [Timeout]), 0, Keep)
    case _ => Effect(t, 0, Keep)
  }

  // ---- One request ----

  /** A dispatch as `rbull_queue_rq` makes it; reads and writes have a segment. */
  ghost predicate Fresh(q: Req) {
    && q.pc.Queued? && q.timer.Off? && !q.done && !q.abort && q.ended == [] && q.incs == q.decs == 0
    && JobOk(q.job)
  }

  /** What the request still holds of `inflight_writes`. */
  function Held(q: Req): int {
    if !q.job.write then 0
    else match q.pc
      case Queued => 0
      case Flushing => 0
      case Loop(i) => i
      case Counted(i) => i + 1
      case Locked(i) => i + 1
      case Moving(i) => i + 1
      case Uncounting(i) => i
      case Ending(e) => Left(e)
      case Won(e) => Left(e)
      case Finished(e) => Left(e)
      case Aborted(i) => i + 1
  }

  /** What a write leaves behind for good. */
  function Left(e: Exit): int {
    match e
    case Flushed => 0
    case Completed(moved) => moved - 1
    case Overflowed(moved) => moved
  }

  ghost predicate JobOk(j: Job) {
    j.fit <= j.segs && (j.write ==> 0 < j.segs) && !(j.flush && j.write)
  }

  ghost predicate ExitOk(j: Job, e: Exit) {
    match e
    case Flushed => j.flush
    case Completed(k) =>
      && !j.flush && k <= j.fit && (j.write ==> 0 < k)
      && (if j.known then k == j.segs else k == Min(1, j.segs))
    case Overflowed(k) => !j.flush && k == j.fit < j.segs && (!j.known ==> k == 0)
  }

  ghost predicate PcOk(j: Job, pc: PC) {
    match pc
    case Queued => true
    case Flushing => j.flush
    case Loop(i) => !j.flush && i <= j.fit && (!j.known ==> i == 0)
    case Counted(i) => !j.flush && i < j.fit && (!j.known ==> i == 0)
    case Locked(i) => !j.flush && i < j.fit && (!j.known ==> i == 0)
    case Moving(i) => !j.flush && i < j.fit && (!j.known ==> i == 0)
    case Uncounting(i) => j.write && ExitOk(j, Completed(i))
    case Ending(e) => ExitOk(j, e)
    case Won(e) => ExitOk(j, e)
    case Finished(e) => ExitOk(j, e)
    case Aborted(i) => !j.flush && i < j.fit && (!j.known ==> i == 0)
  }

  lemma NextPcOk(j: Job, pc: PC, done: bool, abort: bool)
    requires JobOk(j) && PcOk(j, pc)
    ensures PcOk(j, NextPc(j, pc, done, abort))
  {
  }

  /** Who ended the request, or is about to. */
  ghost predicate EndOk(q: Req) {
    && (!q.done ==> q.ended == [] && !q.pc.Won? && !q.timer.TimerWon?)
    && (q.done ==>
        || (q.pc.Won? && !q.timer.TimerWon? && q.ended == [])
        || (q.timer.TimerWon? && !q.pc.Won? && q.ended == [])
        || (!q.pc.Won? && !q.timer.TimerWon? &&
            (q.ended == [Timeout] || (q.pc.Finished? && q.ended == [StatusOf(q.job, q.pc.exit)]))))
    && (q.pc.Finished? || q.timer.Over? ==> q.done)
    && (q.pc.Aborted? ==> q.abort)
    && (q.abort <==> !q.timer.Off?)
    && (Timeout in q.ended || q.timer.TimerWon? ==> q.abort)
  }

  ghost predicate ReqInv(q: Req) {
    && JobOk(q.job) && PcOk(q.job, q.pc) && EndOk(q) && q.incs - q.decs == Held(q) >= 0
  }

  predicate HoldsLock(q: Req) {
    q.pc.Locked? || q.pc.Moving? || q.pc.Aborted?
  }

  lemma ActKeepsEnd(q: Req, a: Act)
    requires ReqInv(q) && Ready(q, a)
    ensures EndOk(ActOn(q, a).req)
  {
  }

  lemma ActKeepsPc(q: Req, a: Act)
    requires ReqInv(q) && Ready(q, a)
    ensures var e := ActOn(q, a);
      e.req.job == q.job && PcOk(q.job, e.req.pc)
  {
    NextPcOk(q.job, q.pc, q.done, q.abort);
  }

  lemma ActCounts(q: Req, a: Act)
    requires ReqInv(q) && Ready(q, a)
    ensures var e := ActOn(q, a);
      && Held(e.req) == Held(q) + e.delta >= 0
      && e.req.incs - e.req.decs == q.incs - q.decs + e.delta
  {
  }

  /** A step of a request keeps its invariant and accounts for the counter and the lock. */
  lemma ActKeepsReq(q: Req, a: Act)
    requires ReqInv(q) && Ready(q, a)
    ensures var e := ActOn(q, a);
      ReqInv(e.req) && e.req.job == q.job && Held(e.req) == Held(q) + e.delta
  {
    ActKeepsEnd(q, a);
    ActKeepsPc(q, a);
    ActCounts(q, a);
  }

  lemma ActUsesLock(q: Req, a: Act)
    requires Ready(q, a)
    ensures var e := ActOn(q, a);
      && e.req.job == q.job
      && (HoldsLock(e.req) <==> if e.lock.Keep? then HoldsLock(q) else e.lock.Take?)
      && (e.lock.Take? <==> a.Lock?) && (e.lock.Take? ==> !HoldsLock(q)) && (e.lock.Drop? ==> HoldsLock(q))
  {
  }

  /** Once a worker has finished or aborted it moves no more and holds what it holds. */
  lemma RestIsFinal(q: Req, a: Act)
    requires ReqInv(q) && Ready(q, a) && (q.pc.Finished? || q.pc.Aborted?)
    ensures var e := ActOn(q, a);
      e.req.pc == q.pc && e.req.job == q.job && e.delta == 0 && e.lock.Keep?
  {
  }

  // ---- All requests ----

  datatype State = State(reqs: seq<Req>, inflight: int, writer: Option<nat>, readers: set<nat>)

  datatype Step = Dispatch(q: Req) | Do(r: nat, a: Act)

  ghost predicate Enabled(s: State, step: Step) {
    match step
    case Dispatch(q) => Fresh(q)
    case Do(r, a) =>
      && r < |s.reqs| && Ready(s.reqs[r], a)
      && (a.PassFlush? ==> s.inflight == 0)
      && (a.Lock? ==> s.writer == None && (s.reqs[r].job.write ==> s.readers == {}))
  }

  ghost function Apply(s: State, step: Step): State
    requires Enabled(s, step)
  {
    match step
    case Dispatch(q) => s.(reqs := s.reqs + [q])
    case Do(r, a) =>
      var e := ActOn(s.reqs[r], a);
      var t := s.(reqs := s.reqs[r := e.req], inflight := s.inflight + e.delta);
      match e.lock
      case Keep => t
      case Take => if e.req.job.write then t.(writer := Some(r)) else t.(readers := t.readers + {r})
      case Drop => if e.req.job.write then t.(writer := None) else t.(readers := t.readers - {r})
  }

  /** What all requests together hold of the counter. */
  function Total(reqs: seq<Req>, n: nat): int
    requires n <= |reqs|
  {
    if n == 0 then 0 else Total(reqs, n - 1) + Held(reqs[n - 1])
  }

  lemma {:induction false} TotalUpdate(reqs: seq<Req>, n: nat, r: nat, q: Req)
    requires n <= |reqs| && r < |reqs|
    ensures Total(reqs[r := q], n) == Total(reqs, n) + if r < n then Held(q) - Held(reqs[r]) else 0
  {
    if 0 < n {
      TotalUpdate(reqs, n - 1, r, q);
    }
  }

  lemma {:induction false} TotalAppend(reqs: seq<Req>, n: nat, q: Req)
    requires n <= |reqs|
    ensures Total(reqs + [q], n) == Total(reqs, n)
  {
    if 0 < n {
      TotalAppend(reqs, n - 1, q);
    }
  }

  /** The counter never undercounts: it is at least what any one request holds. */
  lemma {:induction false} TotalBounds(reqs: seq<Req>, n: nat, r: nat)
    requires n <= |reqs| && forall i :: 0 <= i < n ==> ReqInv(reqs[i])
    ensures Total(reqs, n) >= 0 && (r < n ==> Total(reqs, n) >= Held(reqs[r]))
  {
    if 0 < n {
      TotalBounds(reqs, n - 1, r);
    }
  }

  ghost predicate LockInv(s: State) {
    && (forall r: nat :: r < |s.reqs| && HoldsLock(s.reqs[r]) ==>
        if s.reqs[r].job.write then s.writer == Some(r) else r in s.readers)
    && (s.writer.Some? ==>
        && s.readers == {} && s.writer.value < |s.reqs|
        && HoldsLock(s.reqs[s.writer.value]) && s.reqs[s.writer.value].job.write)
    && (forall r :: r in s.readers ==> r < |s.reqs| && HoldsLock(s.reqs[r]) && !s.reqs[r].job.write)
  }

  ghost predicate Inv(s: State) {
    && (forall r: nat :: r < |s.reqs| ==> ReqInv(s.reqs[r]))
    && s.inflight == Total(s.reqs, |s.reqs|)
    && LockInv(s)
  }

  lemma DoKeepsLock(s: State, r: nat, a: Act)
    requires LockInv(s) && Enabled(s, Do(r, a))
    ensures LockInv(Apply(s, Do(r, a)))
  {
    ActUsesLock(s.reqs[r], a);
    var t := Apply(s, Do(r, a));
    assert forall i: nat :: i < |s.reqs| && i != r ==> t.reqs[i] == s.reqs[i];
  }

  lemma DispatchKeepsInv(s: State, q: Req)
    requires Inv(s) && Fresh(q)
    ensures Inv(Apply(s, Dispatch(q)))
  {
    TotalAppend(s.reqs, |s.reqs|, q);
  }

  lemma DoKeepsInv(s: State, r: nat, a: Act)
    requires Inv(s) && Enabled(s, Do(r, a))
    ensures Inv(Apply(s, Do(r, a)))
  {
    DoKeepsLock(s, r, a);
    ActKeepsReq(s.reqs[r], a);
    TotalUpdate(s.reqs, |s.reqs|, r, ActOn(s.reqs[r], a).req);
  }

  lemma StepKeepsInv(s: State, step: Step)
    requires Inv(s) && Enabled(s, step)
    ensures Inv(Apply(s, step))
  {
    match step
    case Dispatch(q) => DispatchKeepsInv(s, q);
    case Do(r, a) => DoKeepsInv(s, r, a);
  }

  ghost predicate Init(s: State)
    ensures Init(s) ==> Inv(s)
  {
    s == State([], 0, None, {})
  }

  ghost function Run(s: State, trace: seq<Step>): (r: Option<State>)
    requires Inv(s)
    ensures r.Some? ==> Inv(r.value)
    decreases |trace|
  {
    if trace == [] then Some(s)
    else if !Enabled(s, trace[0]) then None
    else
      StepKeepsInv(s, trace[0]);
      Run(Apply(s, trace[0]), trace[1..])
  }

  // ---- Main results ----

  ghost predicate AtRest(q: Req) {
    q.pc.Finished? || q.pc.Aborted?
  }

  /**
   How a request ends that does not time out: well if it is a flush, or if all its segments fit and there
   are none or the operation is known.
   */
  function Expected(j: Job): Status {
    if j.flush || (j.fit == j.segs && (j.known || j.segs == 0)) then Ok else IoError
  }

  /**
   In every interleaving a request is ended at most once, exactly once when its worker and its timeout
   handler are through; by the handler with a timeout, by the worker exactly as the job deserves, and well
   only after every segment was moved.
   */
  lemma EndedOnce(s: State, trace: seq<Step>, r: nat)
    requires Init(s) && Run(s, trace).Some? && r < |Run(s, trace).value.reqs|
    ensures var q := Run(s, trace).value.reqs[r];
      && |q.ended| <= 1
      && (AtRest(q) && (q.timer.Off? || q.timer.Over?) ==> |q.ended| == 1)
      && (q.ended != [] ==> q.ended == [Timeout] || (q.pc.Finished? && q.ended == [Expected(q.job)]))
      && (q.pc.Finished? && q.timer.Off? ==> q.ended == [Expected(q.job)])
      && (Ok in q.ended ==> q.pc == Finished(Flushed) || q.pc == Finished(Completed(q.job.segs)))
      && (Timeout in q.ended ==> q.abort)
      && (q.pc.Aborted? && q.ended != [] ==> q.ended == [Timeout])
  {
    var q := Run(s, trace).value.reqs[r];
    assert ReqInv(q);
    if q.pc.Finished? {
      ExitDeserved(q.job, q.pc.exit);
    }
  }

  /** The exit of the loop says what the job deserves. */
  lemma ExitDeserved(j: Job, e: Exit)
    requires JobOk(j) && ExitOk(j, e)
    ensures StatusOf(j, e) == Expected(j)
  {
  }

  lemma {:induction false} TotalOfNothing(reqs: seq<Req>, n: nat)
    requires n <= |reqs| && forall i :: 0 <= i < n ==> Held(reqs[i]) == 0
    ensures Total(reqs, n) == 0
  {
    if 0 < n {
      TotalOfNothing(reqs, n - 1);
    }
  }

  /** A write before its first increment, or past its decrement with nothing left behind. */
  ghost predicate Quiescent(pc: PC) {
    || pc.Queued? || pc == Loop(0)
    || ((pc.Ending? || pc.Won? || pc.Finished?) && Left(pc.exit) == 0)
  }

  lemma QuiescentHoldsNothing(q: Req)
    requires ReqInv(q) && q.job.write
    ensures Held(q) == 0 <==> Quiescent(q.pc)
  {
  }

  /**
   The counter is what active writes hold plus what finished ones left behind; a waiting flush can pass
   if and only if every write is before its first increment or past its decrement with nothing left behind.
   */
  lemma FlushIsSafe(s: State, trace: seq<Step>, f: nat)
    requires Init(s) && Run(s, trace).Some?
    requires f < |Run(s, trace).value.reqs| && Run(s, trace).value.reqs[f].pc.Flushing?
    ensures var t := Run(s, trace).value;
      && t.inflight == Total(t.reqs, |t.reqs|) >= 0
      && (Enabled(t, Do(f, PassFlush)) <==>
          forall w: nat :: w < |t.reqs| && t.reqs[w].job.write ==> Quiescent(t.reqs[w].pc))
  {
    var t := Run(s, trace).value;
    TotalBounds(t.reqs, |t.reqs|, 0);
    if t.inflight == 0 {
      forall w: nat | w < |t.reqs| && t.reqs[w].job.write ensures Quiescent(t.reqs[w].pc) {
        TotalBounds(t.reqs, |t.reqs|, w);
        QuiescentHoldsNothing(t.reqs[w]);
      }
    } else if forall w: nat :: w < |t.reqs| && t.reqs[w].job.write ==> Quiescent(t.reqs[w].pc) {
      forall w: nat | w < |t.reqs| ensures Held(t.reqs[w]) == 0 {
        assert ReqInv(t.reqs[w]);
      }
      TotalOfNothing(t.reqs, |t.reqs|);
    }
  }

  /**
   What a request at rest has left on the counter, in terms of what it was. Nothing exactly when it is no
   write, or was not aborted and has one segment, does not fit at all or is an operation nobody knows.
   */
  lemma RestLeaves(q: Req)
    requires ReqInv(q) && AtRest(q)
    ensures Held(q) == 0 <==>
      !q.job.write || (q.pc.Finished? && (q.job.segs == 1 || q.job.fit == 0 || !q.job.known))
    ensures q.job.write && q.pc.Finished? && q.job.fit < q.job.segs && q.job.known ==> Held(q) == q.job.fit
    ensures q.job.write && q.pc.Aborted? ==> Held(q) == q.pc.i + 1
  {
  }

  /** A write that ends well leaves its segments less one. */
  lemma OnlySingleSegmentsBalance(q: Req)
    requires ReqInv(q) && q.job.write && Ok in q.ended
    ensures Held(q) == q.job.segs - 1
  {
  }

  /** Of the workers at rest exactly those that left by the abort exit still have the lock. */
  lemma LockAtRest(s: State, r: nat)
    requires Inv(s) && r < |s.reqs| && AtRest(s.reqs[r])
    ensures s.writer == Some(r) || r in s.readers <==> s.reqs[r].pc.Aborted?
  {
  }

  lemma StepKeepsRest(s: State, step: Step, r: nat)
    requires Inv(s) && Enabled(s, step) && r < |s.reqs| && AtRest(s.reqs[r])
    ensures var t := Apply(s, step);
      r < |t.reqs| && t.reqs[r].pc == s.reqs[r].pc && t.reqs[r].job == s.reqs[r].job
  {
    if step.Do? && step.r == r {
      RestIsFinal(s.reqs[r], step.a);
    }
  }

  lemma {:induction false} RestStays(s: State, trace: seq<Step>, r: nat)
    requires Inv(s) && Run(s, trace).Some? && r < |s.reqs| && AtRest(s.reqs[r])
    ensures var t := Run(s, trace).value;
      r < |t.reqs| && t.reqs[r].pc == s.reqs[r].pc && t.reqs[r].job == s.reqs[r].job
    decreases |trace|
  {
    if trace != [] {
      StepKeepsInv(s, trace[0]);
      StepKeepsRest(s, trace[0], r);
      RestStays(Apply(s, trace[0]), trace[1..], r);
    }
  }

  lemma HeldIsCounted(s: State, w: nat)
    requires Inv(s) && w < |s.reqs|
    ensures s.inflight >= Held(s.reqs[w])
  {
    TotalBounds(s.reqs, |s.reqs|, w);
  }

  /** Once a write has left something behind, no flush passes again, whatever happens later. */
  lemma SurplusBlocksFlushes(s: State, trace: seq<Step>, w: nat, f: nat)
    requires Inv(s) && Run(s, trace).Some? && w < |s.reqs|
    requires AtRest(s.reqs[w]) && Held(s.reqs[w]) > 0
    ensures !Enabled(Run(s, trace).value, Do(f, PassFlush))
  {
    RestStays(s, trace, w);
    HeldIsCounted(Run(s, trace).value, w);
  }

  /**
   The abort exit keeps the lock for good: after an aborted write nothing is moved again,
   after an aborted read nothing is written.
   */
  lemma AbortKeepsLock(s: State, trace: seq<Step>, r: nat, q: nat)
    requires Inv(s) && Run(s, trace).Some? && r < |s.reqs| && s.reqs[r].pc.Aborted?
    requires q < |Run(s, trace).value.reqs| && Run(s, trace).value.reqs[q].pc.Moving?
    ensures !s.reqs[r].job.write && !Run(s, trace).value.reqs[q].job.write
  {
    RestStays(s, trace, r);
    var t := Run(s, trace).value;
    assert HoldsLock(t.reqs[r]) && HoldsLock(t.reqs[q]);
  }

  /** Once the timeout handler has raised `abort`, a worker not in the middle of a segment moves none any more. */
  lemma {:induction false} AbortStopsMoving(s: State, trace: seq<Step>, r: nat)
    requires Inv(s) && Run(s, trace).Some? && r < |s.reqs| && s.reqs[r].abort && !s.reqs[r].pc.Moving?
    ensures var t := Run(s, trace).value;
      r < |t.reqs| && t.reqs[r].abort && !t.reqs[r].pc.Moving?
    decreases |trace|
  {
    if trace != [] {
      StepKeepsInv(s, trace[0]);
      if trace[0].Do? && trace[0].r == r {
        AbortedNextPc(s.reqs[r], trace[0].a);
      }
      AbortStopsMoving(Apply(s, trace[0]), trace[1..], r);
    }
  }

  lemma AbortedNextPc(q: Req, a: Act)
    requires Ready(q, a) && q.abort && !q.pc.Moving?
    ensures ActOn(q, a).req.abort && !ActOn(q, a).req.pc.Moving?
  {
  }

  /** A worker can take the lock exactly when whoever has it, aborted or not, reads as it does. */
  lemma LocksIff(s: State, r: nat)
    requires Inv(s) && r < |s.reqs| && s.reqs[r].pc.Counted?
    ensures Enabled(s, Do(r, Lock)) <==>
      forall q: nat :: q < |s.reqs| && HoldsLock(s.reqs[q]) ==> !s.reqs[q].job.write && !s.reqs[r].job.write
  {
  }

  /** A handler that comes back for a request that has been ended ends nothing. */
  lemma LateTimeoutEndsNothing(q: Req)
    requires ReqInv(q) && q.timer.Over?
    ensures Ready(q, Fire) && var a := ActOn(q, Fire).req;
      && Ready(a, TimerClaim) && var b := ActOn(a, TimerClaim).req;
      b == q
  {
  }

  /** A write moves its segment alone. */
  lemma WritesAreAlone(s: State, w: nat, q: nat)
    requires Inv(s) && w < |s.reqs| && q < |s.reqs|
    requires s.reqs[w].pc.Moving? && s.reqs[w].job.write && s.reqs[q].pc.Moving?
    ensures w == q
  {
    assert HoldsLock(s.reqs[w]) && HoldsLock(s.reqs[q]);
  }
}
