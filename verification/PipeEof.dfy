/**
 What becomes of a reader that waits on an empty pipe when the last writer
 leaves: it is woken, but the wait looks at the pointers only.
 */
module PipeEof {
  import opened Common
  import PR = PipeRing
  import opened PipeDevice
  import opened PipeProtocol

  // ---- Runs ----

  lemma {:induction false} RunAppend(s: State, a: seq<Step>, b: seq<Step>)
    requires Inv(s) && Run(s, a).Some?
    ensures Run(s, a + b) == Run(Run(s, a).value, b)
    decreases |a|
  {
    if a == [] {
      assert a + b == b;
    } else {
      StepKeepsInv(s, a[0]);
      assert (a + b)[1..] == a[1..] + b;
      RunAppend(Apply(s, a[0]), a[1..], b);
    }
  }

  lemma RunOne(s: State, step: Step)
    requires Inv(s) && Enabled(s, step)
    ensures Inv(Apply(s, step)) && Run(s, [step]) == Some(Apply(s, step))
  {
    StepKeepsInv(s, step);
    assert [step][1..] == [];
  }

  /** One more step at the end of a run. */
  lemma RunMore(s: State, trace: seq<Step>, step: Step)
    requires Inv(s) && Run(s, trace).Some? && Enabled(Run(s, trace).value, step)
    ensures Run(s, trace + [step]) == Some(Apply(Run(s, trace).value, step))
  {
    RunOne(Run(s, trace).value, step);
    RunAppend(s, trace, [step]);
  }

  // ---- What decides ----

  /** At the end of a look a reader goes for the semaphore exactly when the two pointers it loaded differ. */
  lemma LookDecides(s: State, p: Pid)
    requires Inv(s) && s.At(p).Loaded? && s.At(p).op.Read?
    ensures var t := Apply(s, Decide(p));
      t.At(p) == if s.At(p).seen != s.Pointer(!s.At(p).rpFirst) then Down(s.At(p).op) else Asleep(s.At(p).op)
  {
  }

  /** The state changed only in where `p` stands and in who waits on `inq`. */
  ghost predicate OnlyMoves(s: State, t: State, p: Pid) {
    t == s.(inq := t.inq, procs := t.procs) && forall q :: q != p ==> t.At(q) == s.At(q)
  }

  function LookSteps(p: Pid, rpFirst: bool): seq<Step> {
    [Enqueue(p), Load(p, rpFirst), Decide(p)]
  }

  lemma Enqueued(s: State, p: Pid)
    requires Inv(s) && s.At(p).Preparing? && s.At(p).op.Read?
    ensures var t := Apply(s, Enqueue(p));
      Inv(t) && OnlyMoves(s, t, p) && t.At(p) == Queued(s.At(p).op) && p in t.inq
  {
    StepKeepsInv(s, Enqueue(p));
  }

  lemma HalfLooked(s: State, p: Pid, rpFirst: bool)
    requires Inv(s) && s.At(p).Queued?
    ensures var t := Apply(s, Load(p, rpFirst));
      && Inv(t) && OnlyMoves(s, t, p) && t.inq == s.inq
      && t.At(p) == Loaded(s.At(p).op, rpFirst, s.Pointer(rpFirst))
  {
    StepKeepsInv(s, Load(p, rpFirst));
  }

  lemma Looked(s: State, p: Pid)
    requires Inv(s) && s.At(p).Loaded? && s.At(p).op.Read? && p in s.inq
    ensures var t, differ := Apply(s, Decide(p)), s.At(p).seen != s.Pointer(!s.At(p).rpFirst);
      && Inv(t) && OnlyMoves(s, t, p)
      && t.At(p) == (if differ then Down(s.At(p).op) else Asleep(s.At(p).op)) && (!differ ==> p in t.inq)
  {
    StepKeepsInv(s, Decide(p));
    LookDecides(s, p);
  }

  /** A reader on its way onto the queue looks, and sleeps if the pointers are equal. */
  lemma Look(s: State, p: Pid, rpFirst: bool)
    requires Inv(s) && s.At(p).Preparing? && s.At(p).op.Read?
    ensures var r, op := Run(s, LookSteps(p, rpFirst)), s.At(p).op;
      && r.Some? && OnlyMoves(s, r.value, p)
      && r.value.At(p) == (if s.ring.rp != s.ring.wp then Down(op) else Asleep(op))
      && (s.ring.rp == s.ring.wp ==> p in r.value.inq)
  {
    var a := Apply(s, Enqueue(p));
    Enqueued(s, p);
    var b := Apply(a, Load(p, rpFirst));
    HalfLooked(a, p, rpFirst);
    Looked(b, p);
    RunThree(s, Enqueue(p), Load(p, rpFirst), Decide(p));
  }

  lemma RunThree(s: State, x: Step, y: Step, z: Step)
    requires Inv(s) && Enabled(s, x) && Inv(Apply(s, x)) && Enabled(Apply(s, x), y)
    requires Inv(Apply(Apply(s, x), y)) && Enabled(Apply(Apply(s, x), y), z)
    ensures Run(s, [x, y, z]) == Some(Apply(Apply(Apply(s, x), y), z))
  {
    RunOne(s, x);
    RunMore(s, [x], y);
    assert [x] + [y] == [x, y];
    RunMore(s, [x, y], z);
    assert [x, y] + [z] == [x, y, z];
  }

  /**
   A woken reader left to itself goes for the semaphore, where it would see end of file, if and only if
   the pointers differ; otherwise it sleeps on. How many writers are left makes no difference.
   */
  lemma WokenReaderGoesIff(s: State, p: Pid, rpFirst: bool)
    requires Inv(s) && s.At(p).Asleep? && s.At(p).op.Read? && !s.Waits(p)
    ensures var r := Run(s, [Resume(p)] + LookSteps(p, rpFirst));
      && r.Some? && OnlyMoves(s, r.value, p)
      && (r.value.At(p) == Down(s.At(p).op) <==> s.ring.rp != s.ring.wp)
      && (s.ring.rp == s.ring.wp ==> r.value.At(p) == s.At(p) && p in r.value.inq)
  {
    RunOne(s, Resume(p));
    Look(Apply(s, Resume(p)), p, rpFirst);
    RunAppend(s, [Resume(p)], LookSteps(p, rpFirst));
  }

  // ---- Over every run ----

  /** The reader `p` is inside the wait, the ring is empty, and it has seen nothing else. */
  ghost predicate WaitsOnEmpty(s: State, p: Pid, op: Op) {
    && op.Read? && s.live && s.ring.rp == s.ring.wp
    && match s.At(p)
       case First(o) => o == op
       case Glanced(o, _, seen) => o == op && seen == s.ring.rp
       case Preparing(o) => o == op
       case Queued(o) => o == op
       case Loaded(o, _, seen) => o == op && seen == s.ring.rp
       case Asleep(o) => o == op
       case _ => false
  }

  /** A signal to `p`, or a locked section that stores something. */
  ghost predicate Ends(s: State, step: Step, p: Pid)
    requires Inv(s) && Enabled(s, step)
  {
    step == Signal(p) || (step.Attempt? && s.At(step.p).op.Write? && !Fails(s, step.p, step.copied))
  }

  lemma AttemptKeepsWaiting(s: State, p: Pid, op: Op, q: Pid, copied: nat)
    requires Inv(s) && s.At(q).Test? && WaitsOnEmpty(s, p, op) && !Ends(s, Attempt(q, copied), p)
    ensures Inv(Apply(s, Attempt(q, copied))) && WaitsOnEmpty(Apply(s, Attempt(q, copied)), p, op)
  {
    StepKeepsInv(s, Attempt(q, copied));
    HolderSeesWholePointers(s, q);
  }

  /** A step of another process, or of none, that does not touch the pointers. */
  lemma OthersKeepWaiting(s: State, p: Pid, op: Op, step: Step)
    requires Inv(s) && Enabled(s, step) && WaitsOnEmpty(s, p, op)
    requires step.Wrap? || step.WakeUp? || step.Open? || step.Release? || step.Acquire?
    ensures Inv(Apply(s, step)) && WaitsOnEmpty(Apply(s, step), p, op)
  {
    StepKeepsInv(s, step);
    assert step.Release? ==> s.At(p).op.file != step.file;
    assert Apply(s, step).At(p) == s.At(p) && ActiveAllocated(Apply(s, step));
  }

  lemma QuietKeepsWaiting(s: State, p: Pid, op: Op, step: Step)
    requires Inv(s) && Enabled(s, step) && WaitsOnEmpty(s, p, op) && Quiet(step) && step != Signal(p)
    ensures WaitsOnEmpty(Apply(s, step), p, op)
  {
    assert Apply(s, step).ring == s.ring && Apply(s, step).live == s.live;
  }

  lemma StepKeepsWaiting(s: State, p: Pid, op: Op, step: Step)
    requires Inv(s) && Enabled(s, step) && WaitsOnEmpty(s, p, op) && !Ends(s, step, p)
    ensures Inv(Apply(s, step)) && WaitsOnEmpty(Apply(s, step), p, op)
  {
    if step.Attempt? {
      AttemptKeepsWaiting(s, p, op, step.p, step.copied);
    } else if Quiet(step) {
      StepKeepsInv(s, step);
      QuietKeepsWaiting(s, p, op, step);
    } else {
      OthersKeepWaiting(s, p, op, step);
    }
  }

  /** No signal to `p` and no successful write happens. */
  ghost predicate Undisturbed(s: State, trace: seq<Step>, p: Pid)
    requires Inv(s)
    decreases |trace|
  {
    trace != [] && Enabled(s, trace[0]) ==>
      && !Ends(s, trace[0], p)
      && (StepKeepsInv(s, trace[0]); Undisturbed(Apply(s, trace[0]), trace[1..], p))
  }

  /**
   Over every run in which nothing is written and the reader gets no signal it never leaves the
   wait, however many writers leave and however often it is woken: it does not see end of file.
   */
  lemma {:induction false} ReaderSleepsThroughEof(s: State, trace: seq<Step>, p: Pid, op: Op)
    requires Inv(s) && Run(s, trace).Some? && WaitsOnEmpty(s, p, op) && Undisturbed(s, trace, p)
    ensures WaitsOnEmpty(Run(s, trace).value, p, op)
    decreases |trace|
  {
    if trace != [] {
      StepKeepsWaiting(s, p, op, trace[0]);
      ReaderSleepsThroughEof(Apply(s, trace[0]), trace[1..], p, op);
    }
  }

  // ---- A run from the beginning ----

  const READER := Mode(true, false)
  const WRITER := Mode(false, true)

  /** A reader of file 0 and a writer of file 1 have the pipe open; nothing has been written. */
  lemma BothOpen(s: State)
    requires Init(s)
    ensures var r := Run(s, [Open(0, READER), Open(1, WRITER)]);
      r.Some? && var t := r.value;
      && t.live && t.sem == None && t.ring.rp == t.ring.wp && t.nwriters == 1
      && t.files == map[0 := READER, 1 := WRITER] && t.procs == map[]
  {
    InitKeepsInv(s);
    RunOne(s, Open(0, READER));
    RunMore(s, [Open(0, READER)], Open(1, WRITER));
    assert [Open(0, READER)] + [Open(1, WRITER)] == [Open(0, READER), Open(1, WRITER)];
  }

  function ReadSteps(p: Pid, op: Op): seq<Step> {
    [Begin(p, op), Acquire(p), Attempt(p, 0), Glance(p, true), Weigh(p)]
  }

  /** A read that finds the ring empty and a writer there lets go of the semaphore. */
  lemma FindsEmpty(s: State, p: Pid)
    requires Inv(s) && s.At(p).Test? && s.At(p).op.Read? && !s.At(p).op.nonblock
    requires s.ring.rp == s.ring.wp && s.nwriters > 0
    ensures var t := Apply(s, Attempt(p, 0));
      Inv(t) && t.At(p) == First(s.At(p).op) && OnlyMoves(s.(sem := None), t, p)
  {
    HolderSeesWholePointers(s, p);
    StepKeepsInv(s, Attempt(p, 0));
  }

  lemma Enters(s: State, p: Pid, op: Op)
    requires Inv(s) && Enabled(s, Begin(p, op)) && s.sem == None
    ensures var a := Apply(s, Begin(p, op));
      Inv(a) && Enabled(a, Acquire(p)) && var b := Apply(a, Acquire(p));
      Inv(b) && b.At(p) == Test(op) && OnlyMoves(s.(sem := Some(p)), b, p)
  {
    StepKeepsInv(s, Begin(p, op));
    StepKeepsInv(Apply(s, Begin(p, op)), Acquire(p));
  }

  /** A blocking read of an empty pipe with a writer goes to wait. */
  lemma ReadWaits(s: State, p: Pid, op: Op)
    requires Inv(s) && s.At(p) == Idle && op.Read? && !op.nonblock && op.file in s.files && s.files[op.file].read
    requires s.sem == None && s.ring.rp == s.ring.wp && s.nwriters > 0
    ensures var r := Run(s, ReadSteps(p, op));
      r.Some? && OnlyMoves(s, r.value, p) && r.value.At(p) == Preparing(op)
  {
    Enters(s, p, op);
    var c := Apply(Apply(s, Begin(p, op)), Acquire(p));
    FindsEmpty(c, p);
    RunThree(s, Begin(p, op), Acquire(p), Attempt(p, 0));
    FirstLook(Apply(c, Attempt(p, 0)), p, true);
    RunAppend(s, [Begin(p, op), Acquire(p), Attempt(p, 0)], [Glance(p, true), Weigh(p)]);
    assert [Begin(p, op), Acquire(p), Attempt(p, 0)] + [Glance(p, true), Weigh(p)] == ReadSteps(p, op);
  }

  /** The first look of a wait: a reader goes back to the semaphore if the pointers differ, onto the queue if not. */
  lemma FirstLook(s: State, p: Pid, rpFirst: bool)
    requires Inv(s) && s.At(p).First? && s.At(p).op.Read?
    ensures var r, op := Run(s, [Glance(p, rpFirst), Weigh(p)]), s.At(p).op;
      && r.Some? && OnlyMoves(s, r.value, p) && r.value.inq == s.inq
      && r.value.At(p) == if s.ring.rp != s.ring.wp then Down(op) else Preparing(op)
  {
    RunOne(s, Glance(p, rpFirst));
    RunMore(s, [Glance(p, rpFirst)], Weigh(p));
    assert [Glance(p, rpFirst)] + [Weigh(p)] == [Glance(p, rpFirst), Weigh(p)];
  }

  /** The last writer leaves: the sleeping reader is woken. */
  lemma WriterLeaves(s: State, p: Pid)
    requires Inv(s) && s.files == map[0 := READER, 1 := WRITER] && s.nwriters == 1 && s.sem == None
    requires s.At(p).Asleep? && s.At(p).op.Read? && p in s.inq && forall q :: q != p ==> s.At(q) == Idle
    ensures Enabled(s, Release(1))
    ensures var t := Apply(s, Release(1));
      Inv(t) && t.nwriters == 0 && !t.Waits(p) && t.At(p) == s.At(p) && t.ring == s.ring
  {
    assert s.At(p).op.file == 0;
    StepKeepsInv(s, Release(1));
    var t := Apply(s, Release(1));
    assert t.At(p) == s.At(p) && p !in s.outq;
  }

  const EOF_READ := Op.Read(0, 1, false)

  /** A read of one byte, a writer that leaves without writing, a wake-up. */
  function EofTrace(): seq<Step> {
    [Open(0, READER), Open(1, WRITER)] + ReadSteps(0, EOF_READ) + LookSteps(0, true)
    + [Release(1)] + ([Resume(0)] + LookSteps(0, true))
  }

  /** From the beginning: the reader is asleep on an empty ring without writers, and by the above stays so. */
  lemma EofIsMissed(s: State)
    requires Init(s)
    ensures var r := Run(s, EofTrace());
      r.Some? && r.value.nwriters == 0 && r.value.Waits(0) && WaitsOnEmpty(r.value, 0, EOF_READ)
  {
    InitKeepsInv(s);
    var opens := [Open(0, READER), Open(1, WRITER)];
    BothOpen(s);
    var a := Run(s, opens).value;
    ReadWaits(a, 0, EOF_READ);
    RunAppend(s, opens, ReadSteps(0, EOF_READ));
    var b := Run(a, ReadSteps(0, EOF_READ)).value;
    Look(b, 0, true);
    RunAppend(s, opens + ReadSteps(0, EOF_READ), LookSteps(0, true));
    var c := Run(b, LookSteps(0, true)).value;
    WriterLeaves(c, 0);
    var begun := opens + ReadSteps(0, EOF_READ) + LookSteps(0, true);
    RunMore(s, begun, Release(1));
    WokenReaderGoesIff(Apply(c, Release(1)), 0, true);
    RunAppend(s, begun + [Release(1)], [Resume(0)] + LookSteps(0, true));
  }
}
