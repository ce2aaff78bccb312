/**
 Opening the access-controlled scull devices: scullsingle's atomic flag,
 sculluid's owner and scullwuid's blocking open, for any number of openers
 interleaving at atomic operations and spinlock sections.
 */
module AccessControl {
  import opened Common

  // ---- scullsingle ----

  /** Opens in progress and done: those that hold the device and those about to give their decrement back. */
  datatype Single = Single(flag: int, holders: set<nat>, backingOff: set<nat>)

  datatype SingleStep = TryOpen(o: nat) | GiveBack(o: nat) | Close(o: nat)

  predicate SingleEnabled(s: Single, step: SingleStep) {
    match step
    case TryOpen(o) => o !in s.holders && o !in s.backingOff
    case GiveBack(o) => o in s.backingOff
    case Close(o) => o in s.holders
  }

  /** `atomic_dec_and_test` lets an open in; otherwise it owes an `atomic_inc`. */
  function SingleApply(s: Single, step: SingleStep): Single {
    match step
    case TryOpen(o) =>
      if s.flag - 1 == 0 then s.(flag := 0, holders := s.holders + {o})
      else s.(flag := s.flag - 1, backingOff := s.backingOff + {o})
    case GiveBack(o) => s.(flag := s.flag + 1, backingOff := s.backingOff - {o})
    case Close(o) => s.(flag := s.flag + 1, holders := s.holders - {o})
  }

  ghost predicate SingleInv(s: Single) {
    s.flag + |s.holders| + |s.backingOff| == 1 && |s.holders| <= 1 && s.holders !! s.backingOff
  }

  function SingleRun(s: Single, trace: seq<SingleStep>): Option<Single>
    decreases |trace|
  {
    if trace == [] then Some(s)
    else if !SingleEnabled(s, trace[0]) then None
    else SingleRun(SingleApply(s, trace[0]), trace[1..])
  }

  const SINGLE_INIT := Single(1, {}, {})

  /** The flag, the holders and those backing off add up to one, so never two hold the device. */
  lemma {:induction false} SingleIsExclusive(s: Single, trace: seq<SingleStep>)
    requires SingleInv(s) && SingleRun(s, trace).Some?
    ensures SingleInv(SingleRun(s, trace).value)
    decreases |trace|
  {
    if trace != [] {
      SingleIsExclusive(SingleApply(s, trace[0]), trace[1..]);
    }
  }

  /** An open gets in exactly when nobody holds the device and nobody is backing off. */
  lemma SingleOpensIff(s: Single, o: nat)
    requires SingleInv(s) && SingleEnabled(s, TryOpen(o))
    ensures o in SingleApply(s, TryOpen(o)).holders <==> s.holders == {} && s.backingOff == {}
  {
    assert s.flag == 1 <==> |s.holders| == 0 && |s.backingOff| == 0;
  }

  /** So an open can be refused with EBUSY while nobody has the device open. */
  lemma RefusedWhileFree()
    ensures var r := SingleRun(SINGLE_INIT, [TryOpen(0), TryOpen(1), Close(0), TryOpen(2)]);
      r.Some? && r.value.holders == {} && 2 in r.value.backingOff
  {
  }

  /** Once both have backed off the device can be opened. */
  lemma FreeAfterBackingOff()
    ensures var r := SingleRun(SINGLE_INIT,
        [TryOpen(0), TryOpen(1), Close(0), TryOpen(2), GiveBack(2), GiveBack(1), TryOpen(3)]);
      r.Some? && r.value == Single(0, {3}, {})
  {
  }

  // ---- Ownership, as in sculluid and scullwuid ----

  datatype Cred = Cred(uid: nat, euid: nat, dacOverride: bool)

  /** What an open must satisfy against the owner. */
  predicate Passes(owner: int, c: Cred) {
    owner == c.uid || owner == c.euid || c.dacOverride
  }

  predicate Available(owner: int, count: int, c: Cred) {
    count == 0 || Passes(owner, c)
  }

  /** The count is the number of opens, and all of them passed the test against the present owner. */
  ghost predicate OwnedInv(owner: int, count: int, holders: map<nat, Cred>) {
    count == |holders| && forall h :: h in holders ==> Passes(owner, holders[h])
  }

  lemma GrantKeepsOwned(owner: int, count: int, holders: map<nat, Cred>, h: nat, c: Cred)
    requires OwnedInv(owner, count, holders) && h !in holders && Available(owner, count, c)
    ensures OwnedInv(if count == 0 then c.uid else owner, count + 1, holders[h := c])
  {
    assert holders[h := c].Keys == holders.Keys + {h};
    assert |holders.Keys| == |holders| && |holders[h := c].Keys| == |holders[h := c]|;
    if count == 0 {
      assert holders.Keys == {};
    }
  }

  lemma DropKeepsOwned(owner: int, count: int, holders: map<nat, Cred>, h: nat)
    requires OwnedInv(owner, count, holders) && h in holders
    ensures OwnedInv(owner, count - 1, holders - {h}) && 0 < count
  {
    assert (holders - {h}).Keys == holders.Keys - {h};
    assert |holders.Keys| == |holders| && |(holders - {h}).Keys| == |holders - {h}|;
  }

  /** The globals of sculluid; `holders` are the opens that have not been released, with who opened them. */
  class UidDevice {
    var owner: int
    var count: int
    ghost var holders: map<nat, Cred>

    constructor ()
      ensures Valid() && holders == map[]
    {
      owner, count, holders := 0, 0, map[];
    }

    ghost predicate Valid()
      reads this
    {
      OwnedInv(owner, count, holders)
    }

    /** `scull_uid_open`, under the spinlock; `h` names the new open file. */
    method Open(c: Cred, ghost h: nat) returns (ok: bool)
      requires Valid() && h !in holders
      modifies this
      ensures Valid()
      ensures ok <==> old(holders) == map[] || Passes(old(owner), c)
      ensures holders == if ok then old(holders)[h := c] else old(holders)
      ensures owner == if old(holders) == map[] then c.uid else old(owner)
    {
      assert count == 0 <==> holders == map[];
      if count != 0 && owner != c.uid && owner != c.euid && !c.dacOverride {
        return false;
      }
      GrantKeepsOwned(owner, count, holders, h, c);
      if count == 0 {
        owner := c.uid;
      }
      count := count + 1;
      holders := holders[h := c];
      ok := true;
    }

    /** `scull_uid_release`. */
    method Release(ghost h: nat)
      requires Valid() && h in holders
      modifies this
      ensures Valid() && holders == old(holders) - {h} && owner == old(owner)
    {
      DropKeepsOwned(owner, count, holders, h);
      count := count - 1;
      holders := holders - {h};
    }
  }

  // ---- scullwuid: blocking open ----

  /** Where an opener stands in `scull_wuid_open`. */
  datatype PC =
    | Outside
    | Testing(c: Cred, nonblock: bool)      // going for the spinlock
    | Looking(c: Cred, queued: bool)        // test failed; about to look without the lock, first off the queue
    | SawCount(c: Cred, queued: bool)       // saw a count that is not zero
    | SawOwner(c: Cred, queued: bool)       // and an owner that is not its uid
    | SawEffective(c: Cred, queued: bool)   // and an owner that is not its euid
    | Preparing(c: Cred)                    // going onto the wait queue
    | Asleep(c: Cred)

  datatype State = State(
    owner: int,
    count: int,
    holders: map<nat, Cred>,
    wakesDue: nat,              // releases that brought the count to zero and have not woken the queue yet
    queue: set<nat>,            // waiting openers not yet woken
    openers: map<nat, PC>
  ) {
    function At(o: nat): PC {
      if o in openers then openers[o] else Outside
    }

    function Go(o: nat, pc: PC): State {
      this.(openers := openers[o := pc])
    }

    predicate AvailableTo(c: Cred) {
      Available(owner, count, c)
    }
  }

  datatype Step =
    | Begin(o: nat, c: Cred, nonblock: bool)
    | Test(o: nat)                  // the locked section
    | Enqueue(o: nat)
    | LoadCount(o: nat)
    | LoadOwner(o: nat)
    | LoadOwnerAgain(o: nat)
    | Decide(o: nat)                // capable()
    | Signal(o: nat)
    | Resume(o: nat)
    | Release(h: nat)               // the locked section of a release
    | Wake

  ghost predicate Enabled(s: State, step: Step) {
    match step
    case Begin(o, _, _) => s.At(o).Outside? && o !in s.holders
    case Test(o) => s.At(o).Testing?
    case Enqueue(o) => s.At(o).Preparing?
    case LoadCount(o) => s.At(o).Looking?
    case LoadOwner(o) => s.At(o).SawCount?
    case LoadOwnerAgain(o) => s.At(o).SawOwner?
    case Decide(o) => s.At(o).SawEffective?
    case Signal(o) => s.At(o).Asleep?
    case Resume(o) => s.At(o).Asleep? && o !in s.queue
    case Release(h) => h in s.holders
    case Wake => s.wakesDue > 0
  }

  /** Leaving the wait with the device available: off the queue, back to the lock. */
  ghost function Leave(s: State, o: nat, c: Cred): State {
    s.(queue := s.queue - {o}).Go(o, Testing(c, false))
  }

  ghost function Apply(s: State, step: Step): State
    requires Enabled(s, step)
  {
    match step
    case Begin(o, c, nonblock) => s.Go(o, Testing(c, nonblock))
    case Test(o) =>
      var c := s.At(o).c;
      if s.AvailableTo(c) then
        s.(owner := if s.count == 0 then c.uid else s.owner,
           count := s.count + 1, holders := s.holders[o := c]).Go(o, Outside)
      else if s.At(o).nonblock then s.Go(o, Outside)
      else s.Go(o, Looking(c, false))
    case LoadCount(o) =>
      var c, queued := s.At(o).c, s.At(o).queued;
      if s.count == 0 then Leave(s, o, c) else s.Go(o, SawCount(c, queued))
    case LoadOwner(o) =>
      var c, queued := s.At(o).c, s.At(o).queued;
      if s.owner == c.uid then Leave(s, o, c) else s.Go(o, SawOwner(c, queued))
    case LoadOwnerAgain(o) =>
      var c, queued := s.At(o).c, s.At(o).queued;
      if s.owner == c.euid then Leave(s, o, c) else s.Go(o, SawEffective(c, queued))
    case Decide(o) =>
      var c, queued := s.At(o).c, s.At(o).queued;
      if c.dacOverride then Leave(s, o, c) else s.Go(o, if queued then Asleep(c) else Preparing(c))
    case Enqueue(o) => s.(queue := s.queue + {o}).Go(o, Looking(s.At(o).c, true))
    case Signal(o) => s.(queue := s.queue - {o}).Go(o, Outside)
    // wait_event goes onto the queue again and looks again
    case Resume(o) => s.Go(o, Preparing(s.At(o).c))
    case Release(h) =>
      var due := if s.count - 1 == 0 then 1 else 0;
      s.(count := s.count - 1, holders := s.holders - {h}, wakesDue := s.wakesDue + due)
    case Wake => s.(wakesDue := s.wakesDue - 1, queue := {})
  }

  /** What a queued opener relies on: whatever it has ruled out and has become true since is followed by a wake-up. */
  ghost predicate WaitOk(s: State, o: nat) {
    match s.At(o)
    case Looking(_, queued) => queued
    case SawCount(_, queued) => queued && (s.count == 0 ==> s.wakesDue > 0)
    case SawOwner(c, queued) => queued && (s.count == 0 || s.owner == c.uid ==> s.wakesDue > 0)
    case SawEffective(c, queued) =>
      queued && (s.count == 0 || s.owner == c.uid || s.owner == c.euid ==> s.wakesDue > 0)
    case Asleep(c) => s.AvailableTo(c) ==> s.wakesDue > 0
    case _ => false
  }

  ghost predicate Inv(s: State) {
    && OwnedInv(s.owner, s.count, s.holders)
    && (forall o :: o in s.queue ==> WaitOk(s, o))
    && (forall o :: o in s.holders ==> s.At(o).Outside?)
  }

  ghost predicate Init(s: State)
    ensures Init(s) ==> Inv(s)
  {
    s == State(-1, 0, map[], 0, {}, map[])
  }

  lemma TestKeepsInv(s: State, o: nat)
    requires Inv(s) && Enabled(s, Test(o))
    ensures Inv(Apply(s, Test(o)))
  {
    var t := Apply(s, Test(o));
    if s.AvailableTo(s.At(o).c) {
      GrantKeepsOwned(s.owner, s.count, s.holders, o, s.At(o).c);
    }
    forall q | q in t.queue ensures WaitOk(t, q) {
      assert WaitOk(s, q) && q != o;
    }
  }

  lemma ReleaseKeepsInv(s: State, h: nat)
    requires Inv(s) && Enabled(s, Release(h))
    ensures Inv(Apply(s, Release(h)))
  {
    var t := Apply(s, Release(h));
    DropKeepsOwned(s.owner, s.count, s.holders, h);
    forall q | q in t.queue ensures WaitOk(t, q) {
      assert WaitOk(s, q) && t.At(q) == s.At(q);
    }
  }

  /** All other steps move one opener, or empty the queue. */
  lemma QuietKeepsInv(s: State, step: Step)
    requires Inv(s) && Enabled(s, step) && !step.Test? && !step.Release?
    ensures Inv(Apply(s, step))
  {
    var t := Apply(s, step);
    forall q | q in t.queue ensures WaitOk(t, q) {
      if q in s.queue {
        assert WaitOk(s, q);
      }
    }
  }

  lemma StepKeepsInv(s: State, step: Step)
    requires Inv(s) && Enabled(s, step)
    ensures Inv(Apply(s, step))
  {
    match step
    case Test(o) => TestKeepsInv(s, o);
    case Release(h) => ReleaseKeepsInv(s, h);
    case _ => QuietKeepsInv(s, step);
  }

  ghost function Run(s: State, trace: seq<Step>): (r: Option<State>)
    requires Inv(s)
    ensures r.Some? ==> Inv(r.value)
    decreases |trace|
  {
    if trace == [] then Some(s)
    else if !Enabled(s, trace[0]) then None
    else
      StepKeepsInv(s, trace[0]);
      Run(Apply(s, trace[0]), trace[1..])
  }

  /**
   In every interleaving the count is the number of opens, each of them passed the test against
   the owner, and a sleeping opener to whom the device is available has a wake-up coming.
   */
  lemma OwnedOpensAreSafe(s: State, trace: seq<Step>)
    requires Init(s) && Run(s, trace).Some?
    ensures var t := Run(s, trace).value;
      && t.count == |t.holders|
      && (forall h :: h in t.holders ==> Passes(t.owner, t.holders[h]))
      && (forall o :: o in t.queue && t.At(o).Asleep? && t.AvailableTo(t.At(o).c) ==> t.wakesDue > 0)
  {
    var t := Run(s, trace).value;
    forall o | o in t.queue && t.At(o).Asleep? && t.AvailableTo(t.At(o).c) ensures t.wakesDue > 0 {
      assert WaitOk(t, o);
    }
  }

  /** The device is open after every step of the run. */
  ghost predicate NeverFree(s: State, trace: seq<Step>)
    requires Inv(s)
    decreases |trace|
  {
    s.count > 0 && (trace != [] && Enabled(s, trace[0]) ==>
      (StepKeepsInv(s, trace[0]); NeverFree(Apply(s, trace[0]), trace[1..])))
  }

  /** As long as the device stays open its owner stays. */
  lemma {:induction false} OwnerStays(s: State, trace: seq<Step>)
    requires Inv(s) && Run(s, trace).Some? && NeverFree(s, trace)
    ensures Run(s, trace).value.owner == s.owner
    decreases |trace|
  {
    if trace != [] {
      StepKeepsInv(s, trace[0]);
      OwnerStays(Apply(s, trace[0]), trace[1..]);
    }
  }

  // ---- What the locked sections do ----

  ghost predicate GetsIn(s: State, c: Cred) {
    s.holders == map[] || Passes(s.owner, c)
  }

  /**
   The locked section of an open, in any reachable state: who gets in, who becomes the owner, who is sent away
   and who goes to wait.
   */
  lemma TestLaw(s: State, o: nat)
    requires Inv(s) && Enabled(s, Test(o))
    ensures var t, c := Apply(s, Test(o)), s.At(o).c;
      && (o in t.holders <==> GetsIn(s, c))
      && t.holders == (if GetsIn(s, c) then s.holders[o := c] else s.holders)
      && t.count == (if GetsIn(s, c) then s.count + 1 else s.count)
      && t.owner == (if s.holders == map[] then c.uid else s.owner)
      && t.At(o) == (if GetsIn(s, c) || s.At(o).nonblock then Outside else Looking(c, false))
      && Elsewhere(s, t, o) && t.queue == s.queue && t.wakesDue == s.wakesDue
  {
    assert s.holders == map[] <==> s.count == 0;
  }

  /** Nobody but `o` has moved. */
  ghost predicate Elsewhere(s: State, t: State, o: nat) {
    forall q :: q != o ==> t.At(q) == s.At(q)
  }

  /** A release gives up one open; the last one owes a wake-up to all who wait. */
  lemma ReleaseLaw(s: State, h: nat)
    requires Inv(s) && h in s.holders
    ensures Enabled(s, Release(h)) && var t := Apply(s, Release(h));
      && t.holders == s.holders - {h} && t.count == s.count - 1 && t.owner == s.owner
      && t.wakesDue == s.wakesDue + (if t.holders == map[] then 1 else 0)
      && t.openers == s.openers && t.queue == s.queue
  {
    DropKeepsOwned(s.owner, s.count, s.holders, h);
    assert s.count - 1 == |s.holders - {h}|;
  }

  /** A signal takes a waiting opener away, and off the queue. */
  lemma SignalLaw(s: State, o: nat)
    requires Inv(s) && s.At(o).Asleep?
    ensures Enabled(s, Signal(o)) && var t := Apply(s, Signal(o));
      t.At(o).Outside? && o !in t.queue && Elsewhere(s, t, o) && t == s.(openers := t.openers, queue := s.queue - {o})
  {
  }

  /** When nothing can move by itself, every opener left is asleep because another user has the device open. */
  lemma StuckMeansOwned(s: State, o: nat)
    requires Inv(s) && !s.At(o).Outside?
    requires forall step: Step :: (step.Begin? || step.Signal? || step.Release?) || !Enabled(s, step)
    ensures s.At(o).Asleep? && s.count > 0 && !Passes(s.owner, s.At(o).c)
  {
    assert !Enabled(s, Test(o)) && !Enabled(s, Enqueue(o)) && !Enabled(s, LoadCount(o)) && !Enabled(s, LoadOwner(o));
    assert !Enabled(s, LoadOwnerAgain(o)) && !Enabled(s, Decide(o)) && !Enabled(s, Resume(o)) && !Enabled(s, Wake);
    assert WaitOk(s, o);
  }
}
