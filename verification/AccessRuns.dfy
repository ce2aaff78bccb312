/** What one opener of scullwuid meets while nobody else moves: a look at the device, and a wait that ends. */
module AccessRuns {
  import opened Common
  import opened AccessControl

  lemma {:induction false} RunAppend(s: State, a: seq<Step>, b: seq<Step>)
    requires Inv(s) && Run(s, a).Some?
    ensures Run(s, a + b) == Run(Run(s, a).value, b)
    decreases |a|
  {
    if a == [] {
      assert a + b == b;
    } else {
      StepKeepsInv(s, a[0]);
      assert (a + b)[1..] == a[1..] + b;
      RunAppend(Apply(s, a[0]), a[1..], b);
    }
  }

  lemma RunOne(s: State, step: Step)
    requires Inv(s) && Enabled(s, step)
    ensures Inv(Apply(s, step)) && Run(s, [step]) == Some(Apply(s, step))
  {
    StepKeepsInv(s, step);
    assert [step][1..] == [];
  }

  lemma RunMore(s: State, trace: seq<Step>, step: Step)
    requires Inv(s) && Run(s, trace).Some? && Enabled(Run(s, trace).value, step)
    ensures Run(s, trace + [step]) == Some(Apply(Run(s, trace).value, step))
  {
    RunOne(Run(s, trace).value, step);
    RunAppend(s, trace, [step]);
  }

  /** From the call to the end of its locked section: in, away, or on to wait. */
  lemma OpenMeets(s: State, o: nat, c: Cred, nonblock: bool)
    requires Inv(s) && s.At(o).Outside? && o !in s.holders
    ensures var r, enters := Run(s, [Begin(o, c, nonblock), Test(o)]), GetsIn(s, c);
      && r.Some? && r.value.holders == (if enters then s.holders[o := c] else s.holders)
      && r.value.At(o) == if enters || nonblock then Outside else Looking(c, false)
  {
    RunOne(s, Begin(o, c, nonblock));
    TestLaw(Apply(s, Begin(o, c, nonblock)), o);
    RunMore(s, [Begin(o, c, nonblock)], Test(o));
    assert [Begin(o, c, nonblock)] + [Test(o)] == [Begin(o, c, nonblock), Test(o)];
  }

  /** The loads of one look, up to the one that decides. */
  function LookSteps(s: State, o: nat, c: Cred): seq<Step> {
    if s.count == 0 then [LoadCount(o)]
    else if s.owner == c.uid then [LoadCount(o), LoadOwner(o)]
    else if s.owner == c.euid then [LoadCount(o), LoadOwner(o), LoadOwnerAgain(o)]
    else [LoadCount(o), LoadOwner(o), LoadOwnerAgain(o), Decide(o)]
  }

  /** A look goes for the lock if and only if the device is available; otherwise onto the queue, or to sleep. */
  lemma LookDecides(s: State, o: nat)
    requires Inv(s) && s.At(o).Looking?
    ensures var c, r := s.At(o).c, Run(s, LookSteps(s, o, s.At(o).c));
      && r.Some?
      && r.value.At(o) ==
          (if s.AvailableTo(c) then Testing(c, false) else if s.At(o).queued then Asleep(c) else Preparing(c))
      && (o in r.value.queue <==> o in s.queue && !s.AvailableTo(c))
      && OnlyMoves(s, r.value, o)
  {
    var c, queued := s.At(o).c, s.At(o).queued;
    RunOne(s, LoadCount(o));
    if s.count != 0 {
      var a := [LoadCount(o)];
      RunMore(s, a, LoadOwner(o));
      if s.owner != c.uid {
        var b := a + [LoadOwner(o)];
        RunMore(s, b, LoadOwnerAgain(o));
        if s.owner != c.euid {
          RunMore(s, b + [LoadOwnerAgain(o)], Decide(o));
          assert b + [LoadOwnerAgain(o)] + [Decide(o)] == LookSteps(s, o, c);
        } else {
          assert b + [LoadOwnerAgain(o)] == LookSteps(s, o, c);
        }
      } else {
        assert a + [LoadOwner(o)] == LookSteps(s, o, c);
      }
    } else {
      assert [LoadCount(o)] == LookSteps(s, o, c);
    }
  }

  /** Everything but where `o` stands, and whether it is on the queue, is as before. */
  ghost predicate OnlyMoves(s: State, t: State, o: nat) {
    t == s.(queue := t.queue, openers := t.openers) && Elsewhere(s, t, o) && t.queue - {o} == s.queue - {o}
  }

  function WaitSteps(o: nat, h: nat): seq<Step> {
    [Release(h), Wake, Resume(o), Enqueue(o), LoadCount(o), Test(o)]
  }

  /** The last holder leaves: the waiting opener is woken, gets in and becomes the owner. */
  lemma WaiterGetsIn(s: State, o: nat, h: nat)
    requires Inv(s) && s.At(o).Asleep? && o in s.queue && s.holders.Keys == {h} && s.wakesDue == 0
    ensures var r := Run(s, WaitSteps(o, h));
      && r.Some? && r.value.holders == map[o := s.At(o).c] && r.value.count == 1
      && r.value.owner == s.At(o).c.uid && r.value.At(o).Outside? && r.value.queue == {}
  {
    var c := s.At(o).c;
    var a := Apply(s, Release(h));
    ReleaseLaw(s, h);
    assert a.holders == map[];
    RunOne(s, Release(h));
    var b := Apply(a, Wake);
    RunMore(s, [Release(h)], Wake);
    StepKeepsInv(a, Wake);
    assert b.At(o) == Asleep(c) && b.queue == {} && b.holders == map[];
    Enters(b, o);
    RunAppend(s, [Release(h)] + [Wake], [Resume(o), Enqueue(o), LoadCount(o), Test(o)]);
    assert [Release(h)] + [Wake] + [Resume(o), Enqueue(o), LoadCount(o), Test(o)] == WaitSteps(o, h);
  }

  /** A woken opener of a free device looks, takes the lock and gets in. */
  lemma Enters(s: State, o: nat)
    requires Inv(s) && s.At(o).Asleep? && s.queue == {} && s.holders == map[]
    ensures var r := Run(s, [Resume(o), Enqueue(o), LoadCount(o), Test(o)]);
      && r.Some? && r.value.holders == map[o := s.At(o).c] && r.value.count == 1
      && r.value.owner == s.At(o).c.uid && r.value.At(o).Outside? && r.value.queue == {}
  {
    var c := s.At(o).c;
    var a := Apply(s, Resume(o));
    RunOne(s, Resume(o));
    var b := Apply(a, Enqueue(o));
    RunMore(s, [Resume(o)], Enqueue(o));
    StepKeepsInv(a, Enqueue(o));
    var d := Apply(b, LoadCount(o));
    RunMore(s, [Resume(o)] + [Enqueue(o)], LoadCount(o));
    StepKeepsInv(b, LoadCount(o));
    assert d.At(o) == Testing(c, false) && d.holders == map[] && d.queue == {};
    TestLaw(d, o);
    RunMore(s, [Resume(o)] + [Enqueue(o)] + [LoadCount(o)], Test(o));
    assert [Resume(o)] + [Enqueue(o)] + [LoadCount(o)] + [Test(o)] == [Resume(o), Enqueue(o), LoadCount(o), Test(o)];
  }
}
