/**
 What the calls on a pipe do: the effect of every locked section on the queued bytes, of opens and releases on
 the buffer, and the calls that run to their end.
 */
module PipeCalls {
  import opened Common
  import PR = PipeRing
  import opened PipeDevice
  import opened PipeProtocol
  import opened PipeEof

  /** The bytes in the pipe, oldest first. */
  ghost function Bytes(s: State): seq<byte> {
    if s.live && s.ring.HalfDone() then s.ring.Contents() else []
  }

  /** A read is bounded by its request, by what is queued and by the end of the buffer. */
  ghost function ReadLimit(s: State, count: nat): nat
    requires s.ring.rp <= s.capacity
  {
    Min(count, Min(|Bytes(s)|, s.capacity - s.ring.rp))
  }

  /** A write is bounded by its data, by all but one of the free bytes and by the end of the buffer. */
  ghost function WriteLimit(s: State, count: nat): int {
    Min(count, Min(s.capacity - 1 - |Bytes(s)|, s.capacity - s.ring.wp))
  }

  /** `n` bytes have left at the front of the queue. */
  ghost predicate Took(s: State, t: State, n: nat) {
    && n <= |Bytes(s)| && Bytes(t) == Bytes(s)[n..]
    && t.delivered == s.delivered + Bytes(s)[..n] && t.accepted == s.accepted
  }

  /** The first `n` bytes of `data` have come behind the queue. */
  ghost predicate Put(s: State, t: State, data: seq<byte>, n: int) {
    && 0 <= n <= |data| && Bytes(t) == Bytes(s) + data[..n]
    && t.accepted == s.accepted + data[..n] && t.delivered == s.delivered
  }

  /** Nobody but `p` has moved, and `p` is at `pc`. */
  ghost predicate Moves(s: State, t: State, p: Pid, pc: PC) {
    t.At(p) == pc && forall q :: q != p ==> t.At(q) == s.At(q)
  }

  // ---- The locked sections ----

  /** A read that finds nothing leaves if no writer is left or if it may not block; otherwise it goes to wait. */
  lemma ReadFindsNothing(s: State, p: Pid, copied: nat)
    requires Inv(s) && s.At(p).Test? && s.At(p).op.Read? && Bytes(s) == []
    ensures var t, op := Apply(s, Attempt(p, copied)), s.At(p).op;
      && t == s.(sem := None, procs := t.procs)
      && Moves(s, t, p, if s.nwriters == 0 || op.nonblock then Idle else First(op))
  {
    HolderSeesWholePointers(s, p);
    PR.SpaceLaw(s.ring);
  }

  /** A read that finds bytes takes as many as its limit allows, or faults and takes none. */
  lemma ReadFindsBytes(s: State, p: Pid, copied: nat)
    requires Inv(s) && s.At(p).Test? && s.At(p).op.Read? && Bytes(s) != []
    ensures s.live && s.ring.Valid()
    ensures var t, op := Apply(s, Attempt(p, copied)), s.At(p).op;
      var n := ReadLimit(s, op.count);
      && (op.count > 0 ==> n > 0)
      && (copied < n ==> t == s.(sem := None, procs := t.procs) && Moves(s, t, p, Idle))
      && (copied >= n ==>
          && t == s.(ring := t.ring, procs := t.procs, delivered := t.delivered)
          && t.ring == s.ring.(rp := t.ring.rp) && Took(s, t, n) && Moves(s, t, p, Moved(op)))
  {
    HolderSeesWholePointers(s, p);
    PR.ReadTakesPrefix(s.ring, s.At(p).op.count);
    PR.SpaceLaw(s.ring);
    assert s.ring.ReadCount(s.At(p).op.count) == ReadLimit(s, s.At(p).op.count);
  }

  /** A write that finds the ring full gives up if it may not block and goes onto the queue otherwise. */
  lemma WriteFindsFull(s: State, p: Pid, copied: nat)
    requires Inv(s) && s.At(p).Test? && s.At(p).op.Write? && |Bytes(s)| == s.capacity - 1
    ensures var t, op := Apply(s, Attempt(p, copied)), s.At(p).op;
      && t == s.(sem := None, procs := t.procs)
      && Moves(s, t, p, if op.nonblock then Idle else Preparing(op))
  {
    HolderSeesWholePointers(s, p);
    PR.SpaceLaw(s.ring);
  }

  /** How much a write may store, in the terms of the ring and of the queue. */
  lemma WriteLimitIs(s: State, p: Pid)
    requires Inv(s) && s.At(p).Test? && s.At(p).op.Write? && |Bytes(s)| != s.capacity - 1
    ensures s.live && s.ring.Valid() && |s.ring.buf| == s.capacity && s.CanGo(s.At(p).op, s.ring.rp, s.ring.wp)
    ensures var data := s.At(p).op.data;
      s.ring.WriteCount(|data|) == WriteLimit(s, |data|) && (data != [] ==> WriteLimit(s, |data|) > 0)
  {
    HolderSeesWholePointers(s, p);
    PR.WriteAppends(s.ring, s.At(p).op.data);
    PR.SpaceLaw(s.ring);
  }

  lemma WriteFaults(s: State, p: Pid, copied: nat)
    requires Inv(s) && s.At(p).Test? && s.At(p).op.Write? && |Bytes(s)| != s.capacity - 1
    requires copied < WriteLimit(s, |s.At(p).op.data|)
    ensures var t, data := Apply(s, Attempt(p, copied)), s.At(p).op.data;
      && t == s.(ring := t.ring, sem := None, procs := t.procs) && Bytes(t) == Bytes(s) && Moves(s, t, p, Idle)
      && |t.ring.buf| == s.capacity && copied <= s.capacity - s.ring.wp && t.ring.rp == s.ring.rp
      && forall i :: 0 <= i < copied ==> t.ring.buf[s.ring.wp + i] == data[i]
  {
    WriteLimitIs(s, p);
    PR.BrokenCopyIsInvisible(s.ring, s.At(p).op.data[..copied]);
  }

  lemma WritePuts(s: State, p: Pid, copied: nat)
    requires Inv(s) && s.At(p).Test? && s.At(p).op.Write? && |Bytes(s)| != s.capacity - 1
    requires copied >= WriteLimit(s, |s.At(p).op.data|)
    ensures var t, op := Apply(s, Attempt(p, copied)), s.At(p).op;
      && t == s.(ring := t.ring, procs := t.procs, accepted := t.accepted) && t.ring.rp == s.ring.rp
      && Put(s, t, op.data, WriteLimit(s, |op.data|)) && Moves(s, t, p, Moved(op))
  {
    WriteLimitIs(s, p);
    PR.WriteAppends(s.ring, s.At(p).op.data);
  }

  /** A write that finds space puts in as much as its limit allows, or faults and keeps the queue. */
  lemma WriteFindsSpace(s: State, p: Pid, copied: nat)
    requires Inv(s) && s.At(p).Test? && s.At(p).op.Write? && |Bytes(s)| != s.capacity - 1
    ensures s.live && s.ring.Valid()
    ensures var t, op := Apply(s, Attempt(p, copied)), s.At(p).op;
      var n := WriteLimit(s, |op.data|);
      && (op.data != [] ==> n > 0) && t.ring.rp == s.ring.rp
      && (copied < n ==>
          && t == s.(ring := t.ring, sem := None, procs := t.procs) && Bytes(t) == Bytes(s) && Moves(s, t, p, Idle)
          && |t.ring.buf| == s.capacity && copied <= s.capacity - s.ring.wp
          && forall i :: 0 <= i < copied ==> t.ring.buf[s.ring.wp + i] == op.data[i])
      && (copied >= n ==>
          && t == s.(ring := t.ring, procs := t.procs, accepted := t.accepted)
          && Put(s, t, op.data, n) && Moves(s, t, p, Moved(op)))
  {
    WriteLimitIs(s, p);
    if copied < WriteLimit(s, |s.At(p).op.data|) {
      WriteFaults(s, p, copied);
    } else {
      WritePuts(s, p, copied);
    }
  }

  /** The outcome of a locked section by the bytes: `n` is the most that can be moved, `nothing` that none can. */
  ghost predicate Outcome(s: State, t: State, p: Pid, n: int, nothing: bool, copied: nat)
    requires s.At(p).Test?
  {
    var op := s.At(p).op;
    if nothing then
      && Took(s, t, 0) && t.sem == None
      && t.At(p) == if op.nonblock || (op.Read? && s.nwriters == 0) then Idle
                    else if op.Read? then First(op) else Preparing(op)
    else if copied < n then Took(s, t, 0) && t.sem == None && t.At(p) == Idle
    else 0 <= n && (if op.Read? then Took(s, t, n) else Put(s, t, op.data, n)) && t.sem == s.sem && t.At(p) == Moved(op)
  }

  /** After every run, whatever the next locked section is, its effect on the bytes and on its caller. */
  lemma EverySection(s: State, trace: seq<Step>, p: Pid, copied: nat)
    requires Init(s) && Run(s, trace).Some? && Run(s, trace).value.At(p).Test?
    ensures var a := Run(s, trace).value;
      var op, b := a.At(p).op, Apply(a, Attempt(p, copied));
      && a.ring.rp <= a.capacity
      && (op.Read? ==> Outcome(a, b, p, ReadLimit(a, op.count), Bytes(a) == [], copied))
      && (op.Write? ==> Outcome(a, b, p, WriteLimit(a, |op.data|), |Bytes(a)| == a.capacity - 1, copied))
  {
    var a := Run(s, trace).value;
    HolderSeesWholePointers(a, p);
    assert a.delivered + Bytes(a)[..0] == a.delivered;
    if a.At(p).op.Read? {
      if Bytes(a) == [] {
        ReadFindsNothing(a, p, copied);
      } else {
        ReadFindsBytes(a, p, copied);
      }
    } else if |Bytes(a)| == a.capacity - 1 {
      WriteFindsFull(a, p, copied);
    } else {
      WriteFindsSpace(a, p, copied);
    }
  }

  // ---- The rest of a call ----

  /** The wrap: the pointers are inside again, the queue stays, the semaphore is free. */
  lemma WrapEffect(s: State, p: Pid)
    requires Inv(s) && s.At(p).Moved?
    ensures var t := Apply(s, Wrap(p));
      && Inv(t) && t == s.(ring := t.ring, sem := None, procs := t.procs) && Moves(s, t, p, Waking(s.At(p).op))
      && t.ring.Valid() && Bytes(t) == Bytes(s)
  {
    StepKeepsInv(s, Wrap(p));
    FreeSemWholePointers(Apply(s, Wrap(p)));
    assert s.Holds(p);
    forall q | s.At(q).Moved? ensures q == p {
      assert s.Holds(q);
    }
    PR.WrapKeepsContents(s.ring);
  }

  /** The wake-up: everybody who waits on the other side is off the queue, nobody else. */
  lemma WakeUpEffect(s: State, p: Pid)
    requires Inv(s) && s.At(p).Waking?
    ensures var t, reader := Apply(s, WakeUp(p)), s.At(p).op.Read?;
      && Inv(t) && t == s.(procs := t.procs, inq := t.inq, outq := t.outq) && Moves(s, t, p, Idle)
      && t.inq == (if reader then s.inq else {}) && t.outq == (if reader then {} else s.outq)
  {
    StepKeepsInv(s, WakeUp(p));
  }

  ghost function CallSteps(p: Pid, copied: nat): seq<Step> {
    [Acquire(p), Attempt(p, copied), Wrap(p), WakeUp(p)]
  }

  /** From the semaphore through the locked section. */
  lemma Acquired(s: State, p: Pid)
    requires Inv(s) && s.At(p).Down? && s.sem == None
    ensures var a := Apply(s, Acquire(p));
      && Inv(a) && a == s.(sem := Some(p), procs := a.procs) && Moves(s, a, p, Test(s.At(p).op))
      && Bytes(a) == Bytes(s) && s.live && s.ring.Valid()
  {
    StepKeepsInv(s, Acquire(p));
    FreeSemWholePointers(s);
  }

  /** Only the bytes, the wait queues and the place of `p`, now out of the call, may differ. */
  ghost predicate Returned(s: State, t: State, p: Pid) {
    && Moves(s, t, p, Idle) && t.ring.Valid()
    && t == s.(ring := t.ring, procs := t.procs, inq := t.inq, outq := t.outq,
               accepted := t.accepted, delivered := t.delivered)
    && (s.At(p).Down? ==>
        && t.inq == (if s.At(p).op.Read? then s.inq else {})
        && t.outq == (if s.At(p).op.Read? then {} else s.outq))
  }

  /** From the moved pointer to the end of the call. */
  lemma Finishes(b: State, p: Pid)
    requires Inv(b) && b.At(p).Moved?
    ensures Enabled(b, Wrap(p)) && var u := Apply(b, Wrap(p));
      && Inv(u) && Enabled(u, WakeUp(p)) && var t, reader := Apply(u, WakeUp(p)), b.At(p).op.Read?;
      && Inv(t) && t.ring.Valid() && Bytes(t) == Bytes(b) && Moves(b, t, p, Idle)
      && t == b.(ring := t.ring, sem := None, procs := t.procs,
                 inq := if reader then b.inq else {}, outq := if reader then {} else b.outq)
  {
    WrapEffect(b, p);
    WakeUpEffect(Apply(b, Wrap(p)), p);
  }

  /** A locked section that moved a pointer, and the rest of its call. */
  lemma CallReturns(s: State, p: Pid, copied: nat, b: State)
    requires Inv(s) && s.At(p).Down? && s.sem == None
    requires var a := Apply(s, Acquire(p));
      && Inv(a) && a.At(p).Test? && b == Apply(a, Attempt(p, copied))
    requires b == s.(ring := b.ring, sem := Some(p), procs := b.procs, accepted := b.accepted, delivered := b.delivered)
    requires Moves(s, b, p, Moved(s.At(p).op))
    ensures var r := Run(s, CallSteps(p, copied));
      && r.Some? && Returned(s, r.value, p)
      && Bytes(r.value) == Bytes(b) && r.value.accepted == b.accepted && r.value.delivered == b.delivered
  {
    StepKeepsInv(Apply(s, Acquire(p)), Attempt(p, copied));
    RunThree(s, Acquire(p), Attempt(p, copied), Wrap(p));
    Finishes(b, p);
    RunMore(s, [Acquire(p), Attempt(p, copied), Wrap(p)], WakeUp(p));
    assert [Acquire(p), Attempt(p, copied), Wrap(p)] + [WakeUp(p)] == CallSteps(p, copied);
  }

  /**
   A read at the semaphore of a pipe that holds bytes returns, undisturbed, with the front of the queue: the rest
   stays, the writers are woken, nothing else changes.
   */
  lemma ReadCompletes(s: State, p: Pid, copied: nat)
    requires Inv(s) && s.At(p).Down? && s.At(p).op.Read? && s.sem == None
    requires Bytes(s) != [] && copied >= s.At(p).op.count
    ensures var r := Run(s, CallSteps(p, copied));
      r.Some? && Returned(s, r.value, p) && s.ring.Valid() && Took(s, r.value, ReadLimit(s, s.At(p).op.count))
  {
    Acquired(s, p);
    var a := Apply(s, Acquire(p));
    ReadFindsBytes(a, p, copied);
    CallReturns(s, p, copied, Apply(a, Attempt(p, copied)));
  }

  /** A write at the semaphore of a pipe with space returns with its bytes behind the queue; the readers are woken. */
  lemma WriteCompletes(s: State, p: Pid, copied: nat)
    requires Inv(s) && s.At(p).Down? && s.At(p).op.Write? && s.sem == None
    requires |Bytes(s)| != s.capacity - 1 && copied >= |s.At(p).op.data|
    ensures var r, data := Run(s, CallSteps(p, copied)), s.At(p).op.data;
      r.Some? && Returned(s, r.value, p) && Put(s, r.value, data, WriteLimit(s, |data|))
  {
    Acquired(s, p);
    var a := Apply(s, Acquire(p));
    WriteFindsSpace(a, p, copied);
    CallReturns(s, p, copied, Apply(a, Attempt(p, copied)));
  }

  // ---- A writer that waits ----

  /** At the end of a look a writer on the queue leaves it for the semaphore exactly if it has seen a free byte. */
  lemma WriterLooksLast(s: State, p: Pid)
    requires Inv(s) && s.live && s.ring.Valid() && s.At(p).Loaded? && s.At(p).op.Write?
    requires s.At(p).seen == s.Pointer(s.At(p).rpFirst)
    ensures var t, full := Apply(s, Decide(p)), |Bytes(s)| == s.capacity - 1;
      && Inv(t) && Moves(s, t, p, if full then Asleep(s.At(p).op) else Down(s.At(p).op))
      && t == s.(procs := t.procs, outq := if full then s.outq else s.outq - {p})
  {
    PR.SpaceLaw(s.ring);
    StepKeepsInv(s, Decide(p));
    assert p !in s.inq;
  }

  lemma WriterQueues(s: State, p: Pid, rpFirst: bool)
    requires Inv(s) && s.At(p).Preparing? && s.At(p).op.Write?
    ensures var a := Apply(s, Enqueue(p));
      && Inv(a) && Enabled(a, Load(p, rpFirst)) && var b := Apply(a, Load(p, rpFirst));
      && Inv(b) && Moves(s, b, p, Loaded(s.At(p).op, rpFirst, s.Pointer(rpFirst)))
      && b == s.(procs := b.procs, outq := s.outq + {p})
  {
    StepKeepsInv(s, Enqueue(p));
    StepKeepsInv(Apply(s, Enqueue(p)), Load(p, rpFirst));
  }

  /** A writer on its way onto the queue looks, and sleeps on the queue exactly if the ring is full. */
  lemma WriterLooks(s: State, p: Pid, rpFirst: bool)
    requires Inv(s) && s.At(p).Preparing? && s.At(p).op.Write? && s.ring.Valid()
    ensures var r, op, full := Run(s, LookSteps(p, rpFirst)), s.At(p).op, |Bytes(s)| == s.capacity - 1;
      && r.Some? && Moves(s, r.value, p, if full then Asleep(op) else Down(op))
      && r.value == s.(procs := r.value.procs, outq := if full then s.outq + {p} else s.outq - {p})
  {
    WriterQueues(s, p, rpFirst);
    var b := Apply(Apply(s, Enqueue(p)), Load(p, rpFirst));
    assert Bytes(b) == Bytes(s);
    WriterLooksLast(b, p);
    RunThree(s, Enqueue(p), Load(p, rpFirst), Decide(p));
    assert s.outq + {p} - {p} == s.outq - {p};
  }

  /** A writer that has been woken goes for the semaphore without another look. */
  lemma WokenWriterGoes(s: State, p: Pid)
    requires Inv(s) && s.At(p).Asleep? && s.At(p).op.Write? && !s.Waits(p)
    ensures var r := Run(s, [Resume(p)]);
      r.Some? && Moves(s, r.value, p, Down(s.At(p).op)) && r.value == s.(procs := r.value.procs)
  {
    RunOne(s, Resume(p));
  }

  /** A reader at the semaphore and a writer asleep: the read lets the writer go on, whatever woke it. */
  lemma ReadLetsWriterIn(s: State, r: Pid, w: Pid, some: nat, more: nat)
    requires Inv(s) && s.sem == None && Bytes(s) != []
    requires s.At(r).Down? && s.At(r).op.Read? && some >= s.At(r).op.count > 0
    requires s.At(w).Asleep? && s.At(w).op.Write? && more >= |s.At(w).op.data| > 0
    ensures var t := Run(s, CallSteps(r, some) + ([Resume(w)] + CallSteps(w, more)));
      && t.Some? && t.value.At(r) == t.value.At(w) == Idle && s.ring.rp <= s.capacity
      && var n := ReadLimit(s, s.At(r).op.count);
      && 0 < n <= |Bytes(s)| && t.value.delivered == s.delivered + Bytes(s)[..n]
      && exists m | 0 < m <= |s.At(w).op.data| :: Bytes(t.value) == Bytes(s)[n..] + s.At(w).op.data[..m]
  {
    ReadCompletes(s, r, some);
    var a := Run(s, CallSteps(r, some)).value;
    SleepsOnOneQueue(s, w);
    SleeperGoesOn(a, w, more);
    RunAppend(s, CallSteps(r, some), [Resume(w)] + CallSteps(w, more));
    assert |Bytes(a)| < |Bytes(s)| <= s.capacity - 1 by {
      PR.SpaceLaw(s.ring);
    }
    var b := Run(a, [Resume(w)] + CallSteps(w, more)).value;
    var m := WriteLimit(a, |s.At(w).op.data|);
    assert 0 < m <= |s.At(w).op.data| && Bytes(b) == Bytes(s)[ReadLimit(s, s.At(r).op.count)..] + s.At(w).op.data[..m];
  }

  lemma SleepsOnOneQueue(s: State, w: Pid)
    requires Inv(s) && s.At(w).Asleep? && s.At(w).op.Write?
    ensures w !in s.inq
  {
  }

  lemma SleeperGoesOn(a: State, w: Pid, more: nat)
    requires Inv(a) && a.sem == None && a.ring.Valid()
    requires a.At(w).Asleep? && !a.Waits(w) && a.At(w).op.Write? && more >= |a.At(w).op.data|
    requires |Bytes(a)| != a.capacity - 1
    ensures var data := a.At(w).op.data;
      var t := Run(a, [Resume(w)] + CallSteps(w, more));
      && t.Some? && Moves(a, t.value, w, Idle) && Put(a, t.value, data, WriteLimit(a, |data|))
  {
    WokenWriterGoes(a, w);
    var b := Run(a, [Resume(w)]).value;
    WriteCompletes(b, w, more);
    RunAppend(a, [Resume(w)], CallSteps(w, more));
  }

  // ---- Opens, releases, signals ----

  /** The first open gives an empty buffer, any other keeps the queue; nobody moves. */
  lemma OpenEffect(s: State, f: File, mode: Mode)
    requires Inv(s) && f !in s.files && s.sem == None
    ensures Enabled(s, Open(f, mode)) && var t := Apply(s, Open(f, mode));
      && t.live && t.ring.Valid() && t.files == s.files[f := mode]
      && t.procs == s.procs && t.sem == s.sem && t.inq == s.inq && t.outq == s.outq && t.capacity == s.capacity
      && (s.live ==> t.ring == s.ring && t.accepted == s.accepted && t.delivered == s.delivered)
      && (!s.live ==> Bytes(t) == t.accepted == t.delivered == [])
  {
    if s.live {
      FreeSemWholePointers(s);
    }
  }

  ghost predicate OpenFor(files: map<File, Mode>) {
    exists f :: f in files && (files[f].read || files[f].write)
  }

  ghost predicate OpenForWriting(files: map<File, Mode>) {
    exists f :: f in files && files[f].write
  }

  /**
   The buffer goes with the last file that reads or writes, until then the queue stays; the waiting readers are
   woken exactly when the last writer leaves.
   */
  lemma ReleaseEffect(s: State, f: File)
    requires Inv(s) && f in s.files && s.sem == None && forall p :: s.At(p) != Idle ==> s.At(p).op.file != f
    ensures Enabled(s, Release(f)) && var t := Apply(s, Release(f));
      && t.files == s.files - {f}
      && (t.live <==> s.live && OpenFor(t.files))
      && t.ring == s.ring && t.accepted == s.accepted && t.delivered == s.delivered
      && t.procs == s.procs && t.sem == s.sem && t.outq == s.outq && t.capacity == s.capacity
      && t.inq == if s.files[f].write && !OpenForWriting(t.files) then {} else s.inq
  {
    StepKeepsInv(s, Release(f));
    EmptyIffNone(Apply(s, Release(f)).files);
  }

  lemma EmptyIffNone(files: map<File, Mode>)
    ensures |Writers(files)| == 0 <==> !OpenForWriting(files)
    ensures |Readers(files)| + |Writers(files)| == 0 <==> !OpenFor(files)
  {
    if f: File :| f in files && files[f].write {
      assert f in Writers(files);
    } else {
      assert Writers(files) == {};
    }
    if f: File :| f in files && files[f].read {
      assert f in Readers(files);
    } else {
      assert Readers(files) == {};
    }
  }

  /** A signal at the semaphore or in the wait ends the call; it takes nothing with it but the place on the queue. */
  lemma SignalEffect(s: State, p: Pid)
    requires Inv(s) && (s.At(p).Down? || s.At(p).Asleep?)
    ensures Enabled(s, Signal(p)) && var t := Apply(s, Signal(p));
      Moves(s, t, p, Idle) && !t.Waits(p) && t == s.(procs := t.procs, inq := s.inq - {p}, outq := s.outq - {p})
  {
  }
}
