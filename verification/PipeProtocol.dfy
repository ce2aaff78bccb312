/**
 Any number of processes on one scull pipe, as a state machine with one step
 per locked section, per unlocked load and per wake-up. Memory accesses are
 taken in program order (semaphore, wait queue and `prepare_to_wait` barriers).
 */
module PipeProtocol {
  import opened Common
  import PR = PipeRing
  import opened PipeDevice

  type Pid = nat
  type File = nat

  datatype Op =
    | Read(file: File, count: nat, nonblock: bool)
    | Write(file: File, data: seq<byte>, nonblock: bool)

  /** Where a process stands in `scull_p_read` or in `scull_p_write` with `get_write_space`. */
  datatype PC =
    | Idle
    | Down(op: Op)                                  // in down_interruptible
    | Test(op: Op)                                  // semaphore held, at the loop condition
    | Moved(op: Op)                                 // semaphore held, pointer advanced but not wrapped
    | Waking(op: Op)                                // semaphore released, wake-up still to come
    | First(op: Op)                                 // reader, semaphore released, at the first look of wait_event
    | Glanced(op: Op, rpFirst: bool, seen: nat)     // one of the two pointers loaded for that look
    | Preparing(op: Op)                             // semaphore released, going onto the wait queue
    | Queued(op: Op)                                // on the wait queue, about to look again without the lock
    | Loaded(op: Op, rpFirst: bool, seen: nat)      // one of the two pointers loaded
    | Asleep(op: Op)                                // in schedule()

  datatype State = State(
    capacity: nat,            // scull_p_buffer
    live: bool,               // dev->start != NULL
    ring: PR.Ring,
    nreaders: int,
    nwriters: int,
    sem: Option<Pid>,         // holder of the semaphore
    inq: set<Pid>,            // waiting readers not yet woken
    outq: set<Pid>,           // waiting writers not yet woken
    files: map<File, Mode>,
    procs: map<Pid, PC>,
    accepted: seq<byte>,      // all bytes taken by writes since the buffer was allocated
    delivered: seq<byte>      // all bytes returned by reads since then
  ) {
    function At(p: Pid): PC {
      if p in procs then procs[p] else Idle
    }

    function Go(p: Pid, pc: PC): State {
      this.(procs := procs[p := pc])
    }

    /** The loop condition of the operation is over: data for a reader, space for a writer. */
    predicate CanGo(op: Op, rp: nat, wp: nat)
      requires 0 < capacity && rp <= capacity && wp <= capacity
    {
      if op.Read? then rp != wp else PR.SpaceFree(rp, wp, capacity) != 0
    }

    /** An unlocked load of one of the two pointers. */
    function Pointer(rpFirst: bool): nat {
      if rpFirst then ring.rp else ring.wp
    }

    /** With one pointer loaded before and the other loaded now, the loop condition of `p` looks over. */
    predicate LooksGood(p: Pid)
      requires At(p).Loaded? || At(p).Glanced?
      requires 0 < capacity && At(p).seen <= capacity && ring.rp <= capacity && ring.wp <= capacity
    {
      if At(p).rpFirst then CanGo(At(p).op, At(p).seen, ring.wp) else CanGo(At(p).op, ring.rp, At(p).seen)
    }

    predicate Holds(p: Pid) {
      At(p).Test? || At(p).Moved?
    }

    /** Some process of the opposite kind has moved its pointer and has not yet woken the queue `op` waits on. */
    ghost predicate WakePending(op: Op) {
      exists q :: (At(q).Moved? || At(q).Waking?) && At(q).op.Read? != op.Read?
    }

    predicate Waits(p: Pid) {
      p in inq || p in outq
    }
  }

  datatype Step =
    | Begin(p: Pid, op: Op)
    | Acquire(p: Pid)
    | Signal(p: Pid)
    | Attempt(p: Pid, copied: nat)       // how far the copy from or to the user gets
    | Wrap(p: Pid)
    | WakeUp(p: Pid)
    | Glance(p: Pid, rpFirst: bool)
    | Weigh(p: Pid)
    | Enqueue(p: Pid)
    | Load(p: Pid, rpFirst: bool)
    | Decide(p: Pid)
    | Resume(p: Pid)
    | Open(file: File, mode: Mode)
    | Release(file: File)

  ghost predicate Init(s: State) {
    && 0 < s.capacity && !s.live && s.nreaders == s.nwriters == 0
    && s.sem == None && s.inq == {} && s.outq == {} && s.files == map[] && s.procs == map[]
    && s.accepted == [] && s.delivered == []
  }

  ghost predicate Enabled(s: State, step: Step) {
    match step
    case Begin(p, op) => s.At(p) == Idle && op.file in s.files
      && (if op.Read? then s.files[op.file].read else s.files[op.file].write)
    case Acquire(p) => s.At(p).Down? && s.sem == None
    case Signal(p) => s.At(p).Down? || s.At(p).Asleep?
    case Attempt(p, _) => s.At(p).Test?
    case Wrap(p) => s.At(p).Moved?
    case WakeUp(p) => s.At(p).Waking?
    case Glance(p, _) => s.At(p).First?
    case Weigh(p) => s.At(p).Glanced?
    case Enqueue(p) => s.At(p).Preparing?
    case Load(p, _) => s.At(p).Queued?
    case Decide(p) => s.At(p).Loaded?
    case Resume(p) => s.At(p).Asleep? && !s.Waits(p)
    case Open(f, _) => f !in s.files && s.sem == None
    // the kernel releases a file only when no call on it is in progress
    case Release(f) => f in s.files && s.sem == None && forall p :: s.At(p) == Idle || s.At(p).op.file != f
  }

  /** The locked section that starts at the loop condition. */
  ghost function ApplyAttempt(s: State, p: Pid, copied: nat): State
    requires Inv(s) && s.At(p).Test?
  {
    var op, r := s.At(p).op, s.ring;
    var leave := s.(sem := None);
    HolderSeesWholePointers(s, p);
    if !s.CanGo(op, r.rp, r.wp) then
      if (op.Read? && s.nwriters == 0) || op.nonblock then leave.Go(p, Idle)
      else leave.Go(p, if op.Read? then First(op) else Preparing(op))
    else if op.Read? then
      PR.ReadTakesPrefix(r, op.count);
      var n := r.ReadCount(op.count);
      if copied < n then leave.Go(p, Idle)
      else s.(ring := r.AdvanceRead(n), delivered := s.delivered + r.buf[r.rp..r.rp + n]).Go(p, Moved(op))
    else
      PR.WriteAppends(r, op.data);
      var n := r.WriteCount(|op.data|);
      if copied < n then
        PR.BrokenCopyIsInvisible(r, op.data[..copied]);
        leave.(ring := r.(buf := Splice(r.buf, r.wp, op.data[..copied]))).Go(p, Idle)
      else s.(ring := r.AdvanceWrite(op.data[..n]), accepted := s.accepted + op.data[..n]).Go(p, Moved(op))
  }

  /** The attempt leaves without moving a pointer. */
  ghost predicate Fails(s: State, p: Pid, copied: nat)
    requires Inv(s) && s.At(p).Test?
  {
    HolderSeesWholePointers(s, p);
    var op := s.At(p).op;
    || !s.CanGo(op, s.ring.rp, s.ring.wp)
    || copied < if op.Read? then s.ring.ReadCount(op.count) else s.ring.WriteCount(|op.data|)
  }

  ghost function ApplyOpen(s: State, f: File, mode: Mode): State {
    var t := if s.live then s
             else s.(live := true, ring := PR.Ring(seq(s.capacity, _ => 0), 0, 0), accepted := [], delivered := []);
    t.(nreaders := t.nreaders + (if mode.read then 1 else 0),
       nwriters := t.nwriters + (if mode.write then 1 else 0),
       files := t.files[f := mode])
  }

  ghost function ApplyRelease(s: State, f: File): State
    requires f in s.files
  {
    var mode := s.files[f];
    var nr := s.nreaders - (if mode.read then 1 else 0);
    var nw := s.nwriters - (if mode.write then 1 else 0);
    s.(nreaders := nr, nwriters := nw, files := s.files - {f},
       inq := if mode.write && nw == 0 then {} else s.inq,
       live := if nr == 0 && nw == 0 then false else s.live)
  }

  ghost function Apply(s: State, step: Step): State
    requires Inv(s) && Enabled(s, step)
  {
    match step
    case Begin(p, op) => s.Go(p, Down(op))
    case Acquire(p) => s.(sem := Some(p)).Go(p, Test(s.At(p).op))
    case Signal(p) => s.(inq := s.inq - {p}, outq := s.outq - {p}).Go(p, Idle)
    case Attempt(p, copied) => ApplyAttempt(s, p, copied)
    case Wrap(p) =>
      var op := s.At(p).op;
      s.(ring := if op.Read? then s.ring.WrapRead() else s.ring.WrapWrite(), sem := None).Go(p, Waking(op))
    case WakeUp(p) =>
      (if s.At(p).op.Read? then s.(outq := {}) else s.(inq := {})).Go(p, Idle)
    case Glance(p, rpFirst) => s.Go(p, Glanced(s.At(p).op, rpFirst, s.Pointer(rpFirst)))
    case Weigh(p) => s.Go(p, if s.LooksGood(p) then Down(s.At(p).op) else Preparing(s.At(p).op))
    case Enqueue(p) =>
      (if s.At(p).op.Read? then s.(inq := s.inq + {p}) else s.(outq := s.outq + {p})).Go(p, Queued(s.At(p).op))
    case Load(p, rpFirst) => s.Go(p, Loaded(s.At(p).op, rpFirst, s.Pointer(rpFirst)))
    case Decide(p) =>
      if s.LooksGood(p) then s.(inq := s.inq - {p}, outq := s.outq - {p}).Go(p, Down(s.At(p).op))
      else s.Go(p, Asleep(s.At(p).op))
    // wait_event goes onto the queue again and looks again; get_write_space goes for the semaphore
    case Resume(p) => s.Go(p, if s.At(p).op.Read? then Preparing(s.At(p).op) else Down(s.At(p).op))
    case Open(f, mode) => ApplyOpen(s, f, mode)
    case Release(f) => ApplyRelease(s, f)
  }

  // ---- The invariant ----

  ghost function Readers(files: map<File, Mode>): set<File> {
    set f | f in files && files[f].read
  }

  ghost function Writers(files: map<File, Mode>): set<File> {
    set f | f in files && files[f].write
  }

  ghost predicate SemInv(s: State) {
    && (forall p: Pid :: s.Holds(p) ==> s.sem == Some(p))
    && (s.sem.Some? ==> s.Holds(s.sem.value))
  }

  ghost predicate FileInv(s: State) {
    && s.nreaders == |Readers(s.files)| && s.nwriters == |Writers(s.files)|
    && (s.nreaders + s.nwriters > 0 ==> s.live)
    && forall p :: s.At(p) != Idle ==>
      var op := s.At(p).op;
      op.file in s.files && if op.Read? then s.files[op.file].read else s.files[op.file].write
  }

  ghost predicate RingInv(s: State) {
    && 0 < s.capacity
    && (s.live ==>
        && |s.ring.buf| == s.capacity && s.ring.HalfDone()
        && (s.ring.rp == s.capacity ==> exists p :: s.At(p).Moved? && s.At(p).op.Read?)
        && (s.ring.wp == s.capacity ==> exists p :: s.At(p).Moved? && s.At(p).op.Write?))
  }

  /** First in, first out: what was accepted is what was delivered plus what is queued. */
  ghost predicate FifoInv(s: State)
    requires RingInv(s)
  {
    s.live ==> s.accepted == s.delivered + s.ring.Contents()
  }

  /** What one process on a wait queue, not yet woken, may rely on. */
  ghost predicate WaitOk(s: State, p: Pid)
    requires RingInv(s) && s.live
  {
    match s.At(p)
    case Queued(_) => true
    case Loaded(op, rpFirst, seen) =>
      seen <= s.capacity &&
      (s.WakePending(op) ||
       if op.Read? then (if rpFirst then seen == s.ring.wp ==> s.ring.rp == s.ring.wp else seen == s.ring.wp)
       else if rpFirst then seen == s.ring.rp
       else !s.CanGo(op, s.ring.rp, seen) ==> !s.CanGo(op, s.ring.rp, s.ring.wp))
    case Asleep(op) => s.WakePending(op) || !s.CanGo(op, s.ring.rp, s.ring.wp)
    case _ => false
  }

  ghost predicate WaitInv(s: State)
    requires RingInv(s)
  {
    && (forall p :: s.Waits(p) ==> s.At(p) != Idle && s.live && WaitOk(s, p))
    && (forall p :: p in s.inq ==> s.At(p).op.Read?)
    && (forall p :: p in s.outq ==> s.At(p).op.Write?)
    && (forall p :: s.At(p).Loaded? || s.At(p).Glanced? ==> s.At(p).seen <= s.capacity)
    && (forall p :: s.At(p).Queued? || s.At(p).Loaded? || s.At(p).Asleep? || !s.Waits(p))
  }

  ghost predicate Inv(s: State) {
    SemInv(s) && FileInv(s) && RingInv(s) && FifoInv(s) && WaitInv(s) && ActiveAllocated(s)
  }

  ghost predicate ActiveAllocated(s: State) {
    forall p :: s.At(p) != Idle ==> s.live
  }

  /** Whoever is at the loop condition with the semaphore sees no half-done update. */
  lemma HolderSeesWholePointers(s: State, p: Pid)
    requires Inv(s) && s.At(p).Test?
    ensures s.live && s.ring.Valid()
  {
    assert s.Holds(p);
    forall q | s.At(q).Moved? ensures false {
      assert s.Holds(q);
    }
  }

  /** The same when nobody has the semaphore. */
  lemma FreeSemWholePointers(s: State)
    requires Inv(s) && s.sem == None && s.live
    ensures s.ring.Valid()
  {
    forall q | s.At(q).Moved? ensures false {
      assert s.Holds(q);
    }
  }

  /** While a file is open for reading or writing the buffer exists. */
  lemma OpenFileMeansBuffer(s: State, f: File)
    requires FileInv(s) && f in s.files && (s.files[f].read || s.files[f].write)
    ensures s.live
  {
    assert f in Readers(s.files) || f in Writers(s.files);
  }

  // ---- Preservation, one kind of step at a time ----

  ghost predicate Quiet(step: Step) {
    || step.Begin? || step.Signal? || step.Glance? || step.Weigh?
    || step.Enqueue? || step.Load? || step.Decide? || step.Resume?
  }

  /**
   Steps that only move the program counter of one process and the wait queues leave every pending
   wake-up pending.
   */
  lemma QuietStepKeepsRing(s: State, step: Step)
    requires Inv(s) && Enabled(s, step) && Quiet(step)
    ensures var t := Apply(s, step);
      && RingInv(t) && FifoInv(t) && SemInv(t)
      && (forall q :: q != step.p ==> t.At(q) == s.At(q))
      && (forall op :: s.WakePending(op) == t.WakePending(op))
  {
    var t := Apply(s, step);
    var p := step.p;
    assert forall q :: q != p ==> t.At(q) == s.At(q);
    assert !s.Holds(p) && !t.Holds(p);
    assert s.At(p).Moved? == t.At(p).Moved? == false;
  }

  /** A step of `p` that leaves the ring and the pending wake-ups alone keeps what the other waiters rely on. */
  lemma OthersKeepWaits(s: State, t: State, p: Pid)
    requires Inv(s) && s.live && t.live && RingInv(t) && t.capacity == s.capacity
    requires t.ring.rp == s.ring.rp && t.ring.wp == s.ring.wp
    requires forall q :: q != p ==> t.At(q) == s.At(q)
    requires forall op :: s.WakePending(op) == t.WakePending(op)
    requires t.inq - {p} <= s.inq && t.outq - {p} <= s.outq
    requires t.At(p).Loaded? || t.At(p).Glanced? ==> t.At(p).seen <= t.capacity
    requires t.Waits(p) ==> t.At(p) != Idle && WaitOk(t, p)
    requires (p in t.inq ==> t.At(p).op.Read?) && (p in t.outq ==> t.At(p).op.Write?)
    ensures WaitInv(t)
  {
    forall q | t.Waits(q) && q != p ensures t.At(q) != Idle && WaitOk(t, q) {
      assert s.Waits(q) && WaitOk(s, q);
    }
  }

  lemma QuietStepKeepsWaits(s: State, step: Step)
    requires Inv(s) && Enabled(s, step) && Quiet(step)
    ensures RingInv(Apply(s, step)) && WaitInv(Apply(s, step))
  {
    QuietStepKeepsRing(s, step);
    if step.Begin? {
      OpenFileMeansBuffer(s, step.op.file);
    }
    assert s.Waits(step.p) ==> WaitOk(s, step.p);
    OthersKeepWaits(s, Apply(s, step), step.p);
  }

  lemma SameFilesKeepFiles(s: State, t: State)
    requires Inv(s) && t.files == s.files && t.nreaders == s.nreaders && t.nwriters == s.nwriters && t.live == s.live
    requires s.live || forall q :: t.At(q) == Idle
    requires forall q :: t.At(q) != Idle ==> t.At(q).op.file in s.files
    requires forall q :: t.At(q) != Idle ==>
      if t.At(q).op.Read? then s.files[t.At(q).op.file].read else s.files[t.At(q).op.file].write
    ensures FileInv(t) && ActiveAllocated(t)
  {
  }

  lemma QuietStepKeepsFiles(s: State, step: Step)
    requires Inv(s) && Enabled(s, step) && Quiet(step)
    ensures FileInv(Apply(s, step)) && ActiveAllocated(Apply(s, step))
  {
    var t := Apply(s, step);
    assert forall q :: q != step.p ==> t.At(q) == s.At(q);
    if step.Begin? {
      OpenFileMeansBuffer(s, step.op.file);
      assert t.At(step.p).op == step.op;
    } else {
      assert s.At(step.p) != Idle && (t.At(step.p) != Idle ==> t.At(step.p).op == s.At(step.p).op);
    }
    SameFilesKeepFiles(s, t);
  }

  lemma QuietStepKeepsInv(s: State, step: Step)
    requires Inv(s) && Enabled(s, step) && Quiet(step)
    ensures Inv(Apply(s, step))
  {
    QuietStepKeepsRing(s, step);
    QuietStepKeepsWaits(s, step);
    QuietStepKeepsFiles(s, step);
  }

  lemma AcquireKeepsInv(s: State, p: Pid)
    requires Inv(s) && Enabled(s, Acquire(p))
    ensures Inv(Apply(s, Acquire(p)))
  {
    var t := Apply(s, Acquire(p));
    assert forall q :: q != p ==> t.At(q) == s.At(q);
    assert t.At(p).Moved? == s.At(p).Moved? == false;
    OthersKeepWaits(s, t, p);
  }

  /** A locked section that leaves without moving a pointer. */
  lemma FailedAttemptKeepsInv(s: State, p: Pid, copied: nat)
    requires Inv(s) && s.At(p).Test? && Fails(s, p, copied)
    ensures Inv(Apply(s, Attempt(p, copied)))
  {
    HolderSeesWholePointers(s, p);
    var t := Apply(s, Attempt(p, copied));
    var op := s.At(p).op;
    if s.CanGo(op, s.ring.rp, s.ring.wp) && op.Write? {
      PR.BrokenCopyIsInvisible(s.ring, op.data[..copied]);
    }
    assert t.At(p) in {Idle, First(op), Preparing(op)};
    assert forall q :: q != p ==> t.At(q) == s.At(q);
    assert s.Holds(p) && !t.Holds(p);
    OthersKeepWaits(s, t, p);
  }

  /**
   A process that owes no wake-up takes none away by moving, and owes one to the other side once it
   has moved a pointer.
   */
  lemma DebtOnlyGrows(s: State, t: State, p: Pid)
    requires forall q :: q != p ==> t.At(q) == s.At(q)
    requires !s.At(p).Moved? && !s.At(p).Waking?
    ensures forall op: Op :: s.WakePending(op) ==> t.WakePending(op)
    ensures t.At(p).Moved? ==> forall op: Op | op.Read? != t.At(p).op.Read? :: t.WakePending(op)
  {
    forall op: Op | s.WakePending(op) ensures t.WakePending(op) {
      var q :| (s.At(q).Moved? || s.At(q).Waking?) && s.At(q).op.Read? != op.Read?;
      assert t.At(q) == s.At(q);
    }
    forall op: Op | t.At(p).Moved? && op.Read? != t.At(p).op.Read? ensures t.WakePending(op) {
    }
  }

  lemma SplitTail(a: seq<byte>, c: seq<byte>, n: nat)
    requires n <= |c|
    ensures a + c == (a + c[..n]) + c[n..]
  {
  }

  /** A locked section that takes data out of the ring keeps FIFO order. */
  lemma ReadAttemptKeepsRing(s: State, p: Pid, copied: nat)
    requires Inv(s) && s.At(p).Test? && s.At(p).op.Read? && !Fails(s, p, copied)
    ensures var t := Apply(s, Attempt(p, copied));
      && RingInv(t) && FifoInv(t)
      && t.At(p) == Moved(s.At(p).op) && t.ring.wp == s.ring.wp
      && (forall q :: q != p ==> t.At(q) == s.At(q))
  {
    HolderSeesWholePointers(s, p);
    PR.ReadTakesPrefix(s.ring, s.At(p).op.count);
    var t := Apply(s, Attempt(p, copied));
    var n := s.ring.ReadCount(s.At(p).op.count);
    assert t.At(p).Moved? && t.At(p).op.Read?;
    SplitTail(s.delivered, s.ring.Contents(), n);
  }

  lemma ReadAttemptKeepsInv(s: State, p: Pid, copied: nat)
    requires Inv(s) && s.At(p).Test? && s.At(p).op.Read? && !Fails(s, p, copied)
    ensures Inv(Apply(s, Attempt(p, copied)))
  {
    ReadAttemptKeepsRing(s, p, copied);
    var t := Apply(s, Attempt(p, copied));
    DebtOnlyGrows(s, t, p);
    assert s.Holds(p) && t.Holds(p);
    forall q | t.Waits(q) ensures t.At(q) != Idle && WaitOk(t, q) {
      assert s.Waits(q) && WaitOk(s, q) && q != p;
    }
  }

  /** A locked section that puts data into the ring. */
  lemma WriteAttemptKeepsInv(s: State, p: Pid, copied: nat)
    requires Inv(s) && s.At(p).Test? && s.At(p).op.Write? && !Fails(s, p, copied)
    ensures Inv(Apply(s, Attempt(p, copied)))
  {
    HolderSeesWholePointers(s, p);
    PR.WriteAppends(s.ring, s.At(p).op.data);
    var t := Apply(s, Attempt(p, copied));
    assert forall q :: q != p ==> t.At(q) == s.At(q);
    DebtOnlyGrows(s, t, p);
    assert s.Holds(p) && t.Holds(p);
    assert t.At(p).Moved? && t.At(p).op.Write?;
    forall q | t.Waits(q) ensures t.At(q) != Idle && WaitOk(t, q) {
      assert s.Waits(q) && WaitOk(s, q) && q != p;
    }
  }

  lemma WrapKeepsInv(s: State, p: Pid)
    requires Inv(s) && Enabled(s, Wrap(p))
    ensures Inv(Apply(s, Wrap(p)))
  {
    var t := Apply(s, Wrap(p));
    assert forall q :: q != p ==> t.At(q) == s.At(q);
    assert s.Holds(p) && !t.Holds(p);
    forall q | q != p && s.At(q).Moved? ensures false {
      assert s.Holds(q);
    }
    PR.WrapKeepsContents(s.ring);
    forall op | s.WakePending(op) ensures t.WakePending(op) {
      var q :| (s.At(q).Moved? || s.At(q).Waking?) && s.At(q).op.Read? != op.Read?;
      assert (t.At(q).Moved? || t.At(q).Waking?) && t.At(q).op.Read? != op.Read?;
    }
  }

  lemma WakeUpKeepsInv(s: State, p: Pid)
    requires Inv(s) && Enabled(s, WakeUp(p))
    ensures Inv(Apply(s, WakeUp(p)))
  {
    var t := Apply(s, WakeUp(p));
    assert forall q :: q != p ==> t.At(q) == s.At(q);
    assert !s.Holds(p) && !t.Holds(p);
    assert s.At(p).Moved? == t.At(p).Moved?;
    assert RingInv(t);
    forall op | s.WakePending(op) && op.Read? == s.At(p).op.Read? ensures t.WakePending(op) {
      var q :| (s.At(q).Moved? || s.At(q).Waking?) && s.At(q).op.Read? != op.Read?;
      assert (t.At(q).Moved? || t.At(q).Waking?) && t.At(q).op.Read? != op.Read?;
    }
  }

  /** The opens counted in `nreaders` and `nwriters` are the open files. */
  lemma OpenCounts(files: map<File, Mode>, f: File, mode: Mode)
    requires f !in files
    ensures |Readers(files[f := mode])| == |Readers(files)| + if mode.read then 1 else 0
    ensures |Writers(files[f := mode])| == |Writers(files)| + if mode.write then 1 else 0
  {
    assert Readers(files[f := mode]) == if mode.read then Readers(files) + {f} else Readers(files);
    assert Writers(files[f := mode]) == if mode.write then Writers(files) + {f} else Writers(files);
  }

  /** A step that changes neither the processes nor, while it lives, the ring keeps what waiters rely on. */
  lemma SameProcsKeepWaits(s: State, t: State)
    requires Inv(s) && RingInv(t) && t.procs == s.procs && t.capacity == s.capacity
    requires t.inq <= s.inq && t.outq <= s.outq
    requires s.live ==> t.ring == s.ring
    requires ActiveAllocated(t)
    ensures WaitInv(t)
  {
    assert forall q :: t.At(q) == s.At(q);
    assert forall op :: s.WakePending(op) == t.WakePending(op);
    forall q | t.Waits(q) ensures t.At(q) != Idle && t.live && WaitOk(t, q) {
      assert s.Waits(q) && WaitOk(s, q);
    }
  }

  lemma OpenKeepsFiles(s: State, f: File, mode: Mode)
    requires Inv(s) && Enabled(s, Open(f, mode))
    ensures var t := Apply(s, Open(f, mode));
      SemInv(t) && FileInv(t) && ActiveAllocated(t)
  {
    OpenCounts(s.files, f, mode);
    var t := Apply(s, Open(f, mode));
    assert t.procs == s.procs && t.sem == s.sem && t.live;
    forall p | t.At(p) != Idle
      ensures var op := t.At(p).op;
        op.file in t.files && if op.Read? then t.files[op.file].read else t.files[op.file].write
    {
      assert t.At(p) == s.At(p) && s.At(p).op.file in s.files && s.At(p).op.file != f;
    }
  }

  lemma OpenKeepsRing(s: State, f: File, mode: Mode)
    requires Inv(s) && Enabled(s, Open(f, mode))
    ensures var t := Apply(s, Open(f, mode));
      RingInv(t) && FifoInv(t)
  {
    var t := Apply(s, Open(f, mode));
    assert forall q :: t.At(q) == s.At(q);
    if s.live {
      FreeSemWholePointers(s);
    }
  }

  lemma OpenKeepsInv(s: State, f: File, mode: Mode)
    requires Inv(s) && Enabled(s, Open(f, mode))
    ensures Inv(Apply(s, Open(f, mode)))
  {
    OpenKeepsFiles(s, f, mode);
    OpenKeepsRing(s, f, mode);
    SameProcsKeepWaits(s, Apply(s, Open(f, mode)));
  }

  lemma ReleaseCounts(files: map<File, Mode>, f: File)
    requires f in files
    ensures Readers(files - {f}) == Readers(files) - {f} && (f in Readers(files) <==> files[f].read)
    ensures Writers(files - {f}) == Writers(files) - {f} && (f in Writers(files) <==> files[f].write)
  {
  }

  lemma ReleaseKeepsFiles(s: State, f: File)
    requires Inv(s) && Enabled(s, Release(f))
    ensures var t := Apply(s, Release(f));
      SemInv(t) && FileInv(t) && ActiveAllocated(t)
  {
    ReleaseCounts(s.files, f);
    var t := Apply(s, Release(f));
    assert forall q :: t.At(q) == s.At(q);
    assert FileInv(t);
    forall p | t.At(p) != Idle ensures t.live {
      assert t.At(p).op.file != f;
      OpenFileMeansBuffer(t, t.At(p).op.file);
    }
  }

  lemma ReleaseKeepsRing(s: State, f: File)
    requires Inv(s) && Enabled(s, Release(f))
    ensures var t := Apply(s, Release(f));
      RingInv(t) && FifoInv(t)
  {
    var t := Apply(s, Release(f));
    assert forall q :: t.At(q) == s.At(q);
    if s.live {
      FreeSemWholePointers(s);
    }
  }

  lemma ReleaseKeepsInv(s: State, f: File)
    requires Inv(s) && Enabled(s, Release(f))
    ensures Inv(Apply(s, Release(f)))
  {
    ReleaseKeepsFiles(s, f);
    ReleaseKeepsRing(s, f);
    SameProcsKeepWaits(s, Apply(s, Release(f)));
  }

  lemma StepKeepsInv(s: State, step: Step)
    requires Inv(s) && Enabled(s, step)
    ensures Inv(Apply(s, step))
  {
    match step
    case Acquire(p) => AcquireKeepsInv(s, p);
    case Attempt(p, copied) =>
      if Fails(s, p, copied) {
        FailedAttemptKeepsInv(s, p, copied);
      } else if s.At(p).op.Read? {
        ReadAttemptKeepsInv(s, p, copied);
      } else {
        WriteAttemptKeepsInv(s, p, copied);
      }
    case Wrap(p) => WrapKeepsInv(s, p);
    case WakeUp(p) => WakeUpKeepsInv(s, p);
    case Open(f, mode) => OpenKeepsInv(s, f, mode);
    case Release(f) => ReleaseKeepsInv(s, f);
    case _ => QuietStepKeepsInv(s, step);
  }

  // ---- Main results ----

  lemma InitKeepsInv(s: State)
    requires Init(s)
    ensures Inv(s)
  {
    assert Readers(s.files) == {} && Writers(s.files) == {};
  }

  /** The state after a run of steps, if every one of them could be taken. */
  ghost function Run(s: State, trace: seq<Step>): (r: Option<State>)
    requires Init(s) || Inv(s)
    ensures r.Some? ==> Inv(r.value)
    decreases |trace|
  {
    assert Inv(s) by {
      if Init(s) {
        InitKeepsInv(s);
      }
    }
    if trace == [] then Some(s)
    else if !Enabled(s, trace[0]) then None
    else
      StepKeepsInv(s, trace[0]);
      Run(Apply(s, trace[0]), trace[1..])
  }

  /**
   Over any interleaving of opens, reads, writes, signals and releases:
   bytes come out in the order they went in, nobody sleeps past a wake-up,
   and whoever is out of its call does not hold the semaphore.
   */
  lemma PipeIsSafe(s: State, trace: seq<Step>)
    requires Init(s) && Run(s, trace).Some?
    ensures var t := Run(s, trace).value;
      && (t.live ==> t.ring.HalfDone() && t.accepted == t.delivered + t.ring.Contents())
      && (t.live && t.sem == None ==> t.ring.Valid())
      && (forall p :: t.At(p).Asleep? && t.Waits(p) ==>
          t.live && (t.CanGo(t.At(p).op, t.ring.rp, t.ring.wp) ==> t.WakePending(t.At(p).op)))
      && (forall p: Pid :: t.sem == Some(p) ==> t.Holds(p))
  {
    var t := Run(s, trace).value;
    if t.live && t.sem == None {
      FreeSemWholePointers(t);
    }
  }

  /**
   A sleeping reader and a sleeping writer never coexist without a wake-up on its way (buffers of two
   bytes or more).
   */
  lemma NoMutualSleep(s: State, r: Pid, w: Pid)
    requires Inv(s) && s.capacity >= 2
    requires s.At(r).Asleep? && s.Waits(r) && s.At(r).op.Read?
    requires s.At(w).Asleep? && s.Waits(w) && s.At(w).op.Write?
    ensures s.WakePending(s.At(r).op) || s.WakePending(s.At(w).op)
  {
    assert WaitOk(s, r) && WaitOk(s, w);
  }

  /** The steps a process takes by itself, without a new system call or a signal. */
  ghost predicate Internal(step: Step) {
    || step.Acquire? || step.Attempt? || step.Wrap? || step.WakeUp?
    || step.Glance? || step.Weigh? || step.Enqueue? || step.Load? || step.Decide? || step.Resume?
  }

  /**
   No deadlock: when nobody can move, everybody is out of the device or asleep for a good reason, all
   on the same side.
   */
  lemma StuckMeansWaiting(s: State)
    requires Inv(s)
    requires forall step :: Internal(step) ==> !Enabled(s, step)
    ensures s.sem == None
    ensures forall p :: s.At(p) != Idle ==>
      s.At(p).Asleep? && s.Waits(p) && s.live && !s.CanGo(s.At(p).op, s.ring.rp, s.ring.wp)
    ensures s.capacity >= 2 ==>
      forall p, q :: s.At(p) != Idle && s.At(q) != Idle ==> s.At(p).op.Read? == s.At(q).op.Read?
  {
    forall p ensures !s.Holds(p) && !s.At(p).Waking? {
      assert !Enabled(s, Attempt(p, 0)) && !Enabled(s, Wrap(p)) && !Enabled(s, WakeUp(p));
    }
    forall p | s.At(p) != Idle
      ensures s.At(p).Asleep? && s.Waits(p) && s.live && !s.CanGo(s.At(p).op, s.ring.rp, s.ring.wp)
    {
      assert !Enabled(s, Acquire(p)) && !Enabled(s, Enqueue(p)) && !Enabled(s, Load(p, true));
      assert !Enabled(s, Decide(p)) && !Enabled(s, Resume(p)) && !Enabled(s, Glance(p, true)) && !Enabled(s, Weigh(p));
      assert WaitOk(s, p);
    }
  }
}
