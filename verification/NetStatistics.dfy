/**
 The counters of the impair driver one by one, over every run and across close and reopen: what each of them
 counts is read off the packets themselves.
 */
module NetStatistics {
  import opened Common
  import opened RxFilter
  import opened NetRing
  import opened NetQueue
  import opened NetProtocol

  /** How many of the first `n` decisions were not to pass the packet. */
  function NotPassed(verdicts: seq<Verdict>, n: nat): nat
    requires n <= |verdicts|
  {
    if n == 0 then 0 else NotPassed(verdicts, n - 1) + if verdicts[n - 1].Passed? then 0 else 1
  }

  lemma {:induction false} NotPassedPrefix(verdicts: seq<Verdict>, v: Verdict, n: nat)
    requires n <= |verdicts|
    ensures NotPassed(verdicts + [v], n) == NotPassed(verdicts, n)
  {
    if 0 < n {
      NotPassedPrefix(verdicts, v, n - 1);
    }
  }

  lemma NotPassedMore(verdicts: seq<Verdict>, v: Verdict)
    ensures NotPassed(verdicts + [v], |verdicts| + 1) ==
      NotPassed(verdicts, |verdicts|) + if v.Passed? then 0 else 1
  {
    NotPassedPrefix(verdicts, v, |verdicts|);
  }

  datatype Tally = Tally(txPackets: int, rxPackets: int, rxDropped: int, discarded: int)

  const NONE := Tally(0, 0, 0, 0)

  function Plus(a: Tally, b: Tally): Tally {
    Tally(a.txPackets + b.txPackets, a.rxPackets + b.rxPackets, a.rxDropped + b.rxDropped, a.discarded + b.discarded)
  }

  /** What has become of the packets of a queue since it was brought up. */
  function Fates(q: Queue): Tally {
    Tally(
      // decided, and past the hands of the drain loop
      |q.log.verdicts| - (if q.poll.stage.Rejected? || q.poll.stage.Forwarded? then 1 else 0),
      // handed to the stack, or about to be
      |q.log.delivered| + (if q.poll.stage.Counted? then 1 else 0),
      // refused, the refusal being noted
      NotPassed(q.log.verdicts, |q.log.verdicts|) - (if q.poll.stage.Rejected? then 1 else 0),
      // left in the RX ring at close
      |q.log.discarded|)
  }

  function Noted(s: Totals): Tally {
    Tally(s.txPackets, s.rxPackets, s.rxDropped, s.discarded)
  }

  lemma TurnCountsFates(q: Queue, f: Filter, luck: Luck, s: Totals)
    requires Sound(q) && Can(q, Turn(luck))
    ensures Plus(Noted(NetProtocol.Account(q, Turn(luck), s)), Fates(q)) == Plus(Noted(s), Fates(Turned(q, f, luck)))
  {
    if q.poll.stage.Got? {
      NotPassedMore(q.log.verdicts, Judge(luck, f, q.poll.txSkb[0].dst, 0));
    } else if q.poll.stage.Admitted? {
      NotPassedMore(q.log.verdicts, NoRoom);
      NotPassedMore(q.log.verdicts, Passed(q.poll.seen));
    }
  }

  /** A step moves each counter by what it does to the packets of its queue. */
  lemma ActCountsFates(q: Queue, f: Filter, a: Action, s: Totals)
    requires Sound(q) && Can(q, a) && !a.Reopen?
    ensures Plus(Noted(NetProtocol.Account(q, a, s)), Fates(q)) == Plus(Noted(s), Fates(Act(q, f, a)))
  {
    if a.Turn? {
      TurnCountsFates(q, f, a.luck, s);
    }
  }

  /** The sum of the first `n`. */
  function Sum(ts: seq<Tally>, n: nat): Tally
    requires n <= |ts|
  {
    if n == 0 then NONE else Plus(Sum(ts, n - 1), ts[n - 1])
  }

  lemma {:induction false} OneChanges(ts: seq<Tally>, i: nat, t: Tally, n: nat)
    requires i < |ts| && n <= |ts|
    ensures var before, after := Sum(ts, n), Sum(ts[i := t], n);
      if i < n then Plus(after, ts[i]) == Plus(before, t) else after == before
  {
    if 0 < n {
      OneChanges(ts, i, t, n - 1);
    }
  }

  lemma {:induction false} SumOfNone(ts: seq<Tally>, n: nat)
    requires n <= |ts| && forall i :: 0 <= i < |ts| ==> ts[i] == NONE
    ensures Sum(ts, n) == NONE
  {
    if 0 < n {
      SumOfNone(ts, n - 1);
    }
  }

  function EachFate(qs: seq<Queue>): (ts: seq<Tally>)
    ensures |ts| == |qs| && forall i :: 0 <= i < |qs| ==> ts[i] == Fates(qs[i])
  {
    seq(|qs|, i requires 0 <= i < |qs| => Fates(qs[i]))
  }

  /** What has become of the packets of all queues. */
  function AllFates(qs: seq<Queue>): Tally {
    Sum(EachFate(qs), |qs|)
  }

  lemma OneFateChanges(qs: seq<Queue>, i: nat, q: Queue)
    requires i < |qs|
    ensures Plus(AllFates(qs[i := q]), Fates(qs[i])) == Plus(AllFates(qs), Fates(q))
  {
    assert EachFate(qs[i := q]) == EachFate(qs)[i := Fates(q)];
    OneChanges(EachFate(qs), i, Fates(q), |qs|);
  }

  lemma FateOfFresh()
    ensures Fates(FRESH) == NONE
  {
  }

  lemma FreshFates(qs: seq<Queue>)
    requires forall i :: 0 <= i < |qs| ==> qs[i] == FRESH
    ensures AllFates(qs) == NONE
  {
    FateOfFresh();
    SumOfNone(EachFate(qs), |qs|);
  }

  /** What had become of the packets of queues that were closed and reopened, noted at each reopening. */
  ghost function Past(p: Tally, s: State, trace: seq<Step>): Tally
    requires Inv(s) && Run(s, trace).Some?
    decreases |trace|
  {
    if trace == [] then p
    else
      StepKeepsInv(s, trace[0]);
      Past(PastStep(p, s, trace[0]), Apply(s, trace[0]), trace[1..])
  }

  ghost function PastStep(p: Tally, s: State, step: Step): Tally
    requires Enabled(s, step)
  {
    if step.On? && step.action.Reopen? then Plus(p, Fates(s.queues[step.q])) else p
  }

  ghost predicate Counted(p: Tally, s: State) {
    Noted(s.stats) == Plus(p, AllFates(s.queues))
  }

  lemma Moved(p: Tally, before: Tally, after: Tally, was: Tally, now: Tally, s: Tally, s': Tally)
    requires Plus(after, was) == Plus(before, now) && s == Plus(p, before) && Plus(s', was) == Plus(s, now)
    ensures s' == Plus(p, after)
  {
  }

  lemma Reopened(p: Tally, before: Tally, after: Tally, was: Tally, s: Tally)
    requires Plus(after, was) == Plus(before, NONE) && s == Plus(p, before)
    ensures s == Plus(Plus(p, was), after)
  {
  }

  lemma OnCounts(p: Tally, s: State, i: nat, a: Action)
    requires Inv(s) && i < |s.queues| && Can(s.queues[i], a) && Counted(p, s)
    ensures Counted(PastStep(p, s, On(i, a)), Apply(s, On(i, a)))
  {
    var q := s.queues[i];
    var q' := Act(q, s.filter, a);
    var before, after := AllFates(s.queues), AllFates(s.queues[i := q']);
    OneFateChanges(s.queues, i, q');
    if a.Reopen? {
      Reopened(p, before, after, Fates(q), Noted(s.stats));
    } else {
      ActCountsFates(q, s.filter, a, s.stats);
      Moved(p, before, after, Fates(q), Fates(q'), Noted(s.stats), Noted(NetProtocol.Account(q, a, s.stats)));
    }
  }

  lemma StepCounts(p: Tally, s: State, step: Step)
    requires Inv(s) && Enabled(s, step) && Counted(p, s)
    ensures Counted(PastStep(p, s, step), Apply(s, step))
  {
    match step
    case SetFilter(_) =>
    case On(i, a) => OnCounts(p, s, i, a);
  }

  lemma {:induction false} RunCounts(p: Tally, s: State, trace: seq<Step>)
    requires Inv(s) && Run(s, trace).Some? && Counted(p, s)
    ensures Counted(Past(p, s, trace), Run(s, trace).value)
    decreases |trace|
  {
    if trace != [] {
      StepKeepsInv(s, trace[0]);
      StepCounts(p, s, trace[0]);
      RunCounts(PastStep(p, s, trace[0]), Apply(s, trace[0]), trace[1..]);
    }
  }

  /**
   Each counter by itself, over every run: `tx_packets` is the number of packets completed, `rx_packets` of those
   on their way up, `rx_dropped` of those refused, and the rest was discarded at close, on all queues together and
   including what they had done before they were reopened.
   */
  lemma EachCounter(s: State, trace: seq<Step>)
    requires Init(s) && Run(s, trace).Some?
    ensures var t := Run(s, trace).value;
      var all := Plus(Past(NONE, s, trace), AllFates(t.queues));
      && t.stats.txPackets == all.txPackets && t.stats.rxPackets == all.rxPackets
      && t.stats.rxDropped == all.rxDropped && t.stats.discarded == all.discarded
  {
    FreshFates(s.queues);
    RunCounts(NONE, s, trace);
  }
}
