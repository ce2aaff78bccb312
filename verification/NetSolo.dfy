/**
 One queue of the impair driver while nobody else moves: what the locked sections of a poll add up to, packet
 by packet, and the way of a packet from its transmission to the stack.
 */
module NetSolo {
  import opened Common
  import opened RxFilter
  import opened NetRing
  import opened NetQueue
  import opened NetProtocol

  /** A queue and the counters. */
  datatype Life = Life(q: Queue, s: Totals)

  ghost function After(l: Life, f: Filter, a: Action): Life {
    Life(Act(l.q, f, a), NetProtocol.Account(l.q, a, l.s))
  }

  /** The state after `k` locked sections of the poll. */
  ghost function Turns(l: Life, f: Filter, luck: Luck, k: nat): Life {
    if k == 0 then l else After(Turns(l, f, luck, k - 1), f, Turn(luck))
  }

  /** The poll is at the drain loop condition, with nothing in its hands. */
  ghost predicate AtDrain(q: Queue) {
    q.poll.stage.Drain? && q.poll.txSkb == [] && q.poll.copy == [] && q.poll.rxSkb == []
  }

  ghost predicate AtDeliver(q: Queue) {
    q.poll.stage.Deliver? && q.poll.txSkb == [] && q.poll.copy == [] && q.poll.rxSkb == []
  }

  /** What one turn of the drain loop leaves of the queue and the counters, if `v` is the verdict. */
  ghost function Drained(l: Life, f: Filter, luck: Luck, v: Verdict): Life
    requires l.q.tx != []
  {
    var q, skb := l.q, l.q.tx[0];
    var p := q.poll.(work := q.poll.work + 1, seen := if v.Passed? || v.NoRoom? then f else q.poll.seen);
    var log := q.log.(
      verdicts := q.log.verdicts + [v],
      freed := q.log.freed + [skb],
      spoilt := if luck.copied && !v.Passed? then q.log.spoilt + [skb] else q.log.spoilt);
    Life(q.(tx := q.tx[1..], rx := if v.Passed? then q.rx + [skb] else q.rx, stopped := false, poll := p, log := log),
         l.s.(txPackets := l.s.txPackets + 1, rxDropped := l.s.rxDropped + if v.Passed? then 0 else 1))
  }

  // the locked sections one by one

  lemma AtGot(t: Life, f: Filter, luck: Luck)
    requires t.q.poll.stage.Got? && t.q.poll.txSkb != []
    ensures After(t, f, Turn(luck)) == Life(DrainFilter(t.q, f, luck), t.s)
  {
  }

  lemma AtAdmitted(t: Life, f: Filter, luck: Luck)
    requires t.q.poll.stage.Admitted?
    ensures After(t, f, Turn(luck)) == Life(DrainPush(t.q), t.s)
  {
  }

  lemma AtRejected(t: Life, f: Filter, luck: Luck)
    requires t.q.poll.stage.Rejected?
    ensures After(t, f, Turn(luck)) == Life(DrainSpoil(t.q), t.s.(rxDropped := t.s.rxDropped + 1))
  {
  }

  lemma AtForwarded(t: Life, f: Filter, luck: Luck)
    requires t.q.poll.stage.Forwarded?
    ensures After(t, f, Turn(luck)) == Life(DrainComplete(t.q), t.s.(txPackets := t.s.txPackets + 1))
  {
  }

  // what they add up to

  lemma PassedSections(l: Life, f: Filter, luck: Luck)
    requires AtDrain(l.q) && l.q.tx != [] && l.q.poll.work < l.q.poll.budget
    requires Judge(luck, f, l.q.tx[0].dst, |l.q.rx|).Passed?
    ensures var q := DrainComplete(DrainPush(DrainFilter(DrainPop(l.q), f, luck)));
      Life(q, l.s.(txPackets := l.s.txPackets + 1)) == Drained(l, f, luck, Passed(f))
  {
  }

  lemma RefusedSections(l: Life, f: Filter, luck: Luck)
    requires AtDrain(l.q) && l.q.tx != [] && l.q.poll.work < l.q.poll.budget
    requires var v := Judge(luck, f, l.q.tx[0].dst, |l.q.rx|);
      !v.Passed? && !v.NoRoom?
    ensures var q := DrainComplete(DrainSpoil(DrainFilter(DrainPop(l.q), f, luck)));
      Life(q, l.s.(rxDropped := l.s.rxDropped + 1, txPackets := l.s.txPackets + 1))
        == Drained(l, f, luck, Judge(luck, f, l.q.tx[0].dst, |l.q.rx|))
  {
  }

  lemma NoRoomSections(l: Life, f: Filter, luck: Luck)
    requires AtDrain(l.q) && l.q.tx != [] && l.q.poll.work < l.q.poll.budget
    requires Judge(luck, f, l.q.tx[0].dst, |l.q.rx|).NoRoom?
    ensures var q := DrainComplete(DrainSpoil(DrainPush(DrainFilter(DrainPop(l.q), f, luck))));
      Life(q, l.s.(rxDropped := l.s.rxDropped + 1, txPackets := l.s.txPackets + 1))
        == Drained(l, f, luck, NoRoom)
  {
  }

  lemma FirstSections(l: Life, f: Filter, luck: Luck)
    requires AtDrain(l.q) && l.q.tx != [] && l.q.poll.work < l.q.poll.budget
    ensures var t := DrainFilter(DrainPop(l.q), f, luck);
      && Turns(l, f, luck, 2) == Life(t, l.s)
      && var v := Judge(luck, f, l.q.tx[0].dst, |l.q.rx|);
      && (v.Passed? || v.NoRoom? <==> t.poll.stage.Admitted?) && (!t.poll.stage.Admitted? <==> t.poll.stage.Rejected?)
      && t.rx == l.q.rx
  {
    assert Turns(l, f, luck, 0) == l;
    assert Turns(l, f, luck, 1) == Life(DrainPop(l.q), l.s);
    AtGot(Life(DrainPop(l.q), l.s), f, luck);
  }

  /** The last two sections of a refused packet. */
  lemma LastSections(l: Life, f: Filter, luck: Luck, k: nat, t: Life)
    requires Turns(l, f, luck, k) == t && t.q.poll.stage.Rejected?
    ensures Turns(l, f, luck, k + 2) ==
      Life(DrainComplete(DrainSpoil(t.q)), t.s.(rxDropped := t.s.rxDropped + 1, txPackets := t.s.txPackets + 1))
  {
    AtRejected(t, f, luck);
    AtForwarded(Life(DrainSpoil(t.q), t.s.(rxDropped := t.s.rxDropped + 1)), f, luck);
  }

  /** One turn of the drain loop, in four or five locked sections: the packet is judged by what it meets. */
  lemma DrainOneAlone(l: Life, f: Filter, luck: Luck)
    requires AtDrain(l.q) && l.q.tx != [] && l.q.poll.work < l.q.poll.budget
    ensures var v := Judge(luck, f, l.q.tx[0].dst, |l.q.rx|);
      Turns(l, f, luck, if v.NoRoom? then 5 else 4) == Drained(l, f, luck, v) && AtDrain(Drained(l, f, luck, v).q)
  {
    var v := Judge(luck, f, l.q.tx[0].dst, |l.q.rx|);
    var two := Life(DrainFilter(DrainPop(l.q), f, luck), l.s);
    FirstSections(l, f, luck);
    if two.q.poll.stage.Rejected? {
      LastSections(l, f, luck, 2, two);
      RefusedSections(l, f, luck);
    } else {
      var three := Life(DrainPush(two.q), l.s);
      AtAdmitted(two, f, luck);
      assert Turns(l, f, luck, 3) == three;
      if v.NoRoom? {
        LastSections(l, f, luck, 3, three);
        NoRoomSections(l, f, luck);
      } else {
        AtForwarded(three, f, luck);
        assert Turns(l, f, luck, 4) == After(three, f, Turn(luck));
        PassedSections(l, f, luck);
      }
    }
  }

  /** What one turn of the deliver loop leaves. */
  ghost function Delivered(l: Life): Life
    requires l.q.rx != []
  {
    var q, skb := l.q, l.q.rx[0];
    Life(q.(rx := q.rx[1..], poll := q.poll.(work := q.poll.work + 1),
            log := q.log.(delivered := q.log.delivered + [skb])),
         l.s.(rxPackets := l.s.rxPackets + 1))
  }

  /** One turn of the deliver loop, in three steps: the oldest packet goes up and is counted. */
  lemma DeliverOneAlone(l: Life, f: Filter, luck: Luck)
    requires AtDeliver(l.q) && l.q.rx != [] && l.q.poll.work < l.q.poll.budget
    ensures Turns(l, f, luck, 3) == Delivered(l) && AtDeliver(Delivered(l).q)
  {
    var q := l.q;
    var one := Life(q.(rx := q.rx[1..], poll := q.poll.(stage := Carrying, rxSkb := [q.rx[0]])), l.s);
    assert Turns(l, f, luck, 0) == l && Turns(l, f, luck, 1) == one;
    CarriedAlone(one, f, luck);
    assert Turns(l, f, luck, 3) == After(After(one, f, Turn(luck)), f, Turn(luck));
  }

  lemma CarriedAlone(t: Life, f: Filter, luck: Luck)
    requires t.q.poll.stage.Carrying?
    ensures After(After(t, f, Turn(luck)), f, Turn(luck)) ==
      Life(t.q.(poll := t.q.poll.(stage := Deliver, work := t.q.poll.work + 1, rxSkb := []),
                log := t.q.log.(delivered := t.q.log.delivered + t.q.poll.rxSkb)),
           t.s.(rxPackets := t.s.rxPackets + 1))
  {
  }

  // ---- The ends of the loops ----

  lemma LoopEnds(t: Life, f: Filter, luck: Luck)
    ensures var q, n := t.q, After(t, f, Turn(luck));
      && (AtDrain(q) && q.poll.work >= q.poll.budget ==> n == Life(q.(poll := q.poll.(stage := Finish)), t.s))
      && (AtDrain(q) && q.poll.work < q.poll.budget && q.tx == [] ==>
          n == Life(q.(poll := q.poll.(stage := Deliver)), t.s))
      && (AtDeliver(q) && (q.poll.work >= q.poll.budget || q.rx == []) ==>
          n == Life(q.(poll := q.poll.(stage := Finish)), t.s))
      && (q.poll.stage.Finish? ==>
          var again := q.poll.work >= q.poll.budget || q.sig.missed;
          n == Life(q.(poll := q.poll.(stage := NotRunning),
                       sig := q.sig.(sched := if q.poll.work >= q.poll.budget then q.sig.sched else q.sig.missed,
                                     missed := q.poll.work >= q.poll.budget && q.sig.missed)), t.s))
  {
  }

  // ---- What starts and stops a queue ----

  /** A transmit is refused exactly when the TX ring has one free slot left, and then stops the queue. */
  lemma XmitLaw(l: Life, f: Filter, skb: Skb)
    requires QueueInv(l.q) && l.q.up && !l.q.sig.producer
    ensures Can(l.q, Xmit(skb)) && var q, n := l.q, After(l, f, Xmit(skb));
      n == if |q.tx| == RING_SIZE - 1 then Life(q.(stopped := true), l.s)
           else Life(q.(tx := q.tx + [skb], sig := q.sig.(producer := true),
                        log := q.log.(sent := q.log.sent + [skb])), l.s)
  {
  }

  /** The watchdog starts a stopped queue and the timer, which makes NAPI look at the TX ring again. */
  lemma WatchdogRestarts(l: Life, f: Filter)
    requires QueueInv(l.q) && l.q.up && l.q.stopped
    ensures Can(l.q, Watchdog) && var a := After(l, f, Watchdog);
      && !a.q.stopped && a.q.tx == l.q.tx != [] && a.s == l.s && a.q.log == l.q.log
      && Can(a.q, TimerExpires) && var b := After(a, f, TimerExpires);
      && Can(b.q, TimerHandler) && var c := After(b, f, TimerHandler);
      && WillLook(c.q) && !c.q.sig.timer && !c.q.sig.firing && c.q.tx == l.q.tx && c.q.poll == l.q.poll && c.s == l.s
  {
  }

  /** A closed queue has empty rings, both their packets given back, is stopped, and no timer is running. */
  lemma CloseLaw(l: Life, f: Filter)
    requires QueueInv(l.q) && l.q.up && !l.q.sig.producer && !l.q.sig.firing && l.q.poll.stage == NotRunning
    ensures Can(l.q, Close) && var q, n := l.q, After(l, f, Close);
      && Can(n.q, Reopen) && Idle(After(n, f, Reopen).q)
      && !n.q.up && n.q.stopped && n.q.tx == n.q.rx == [] && !n.q.sig.timer && n.q.sig.sched == q.sig.sched
      && n.q.log == q.log.(freed := q.log.sent, discarded := q.rx) && n.q.poll == q.poll
      && n.s == l.s.(discarded := l.s.discarded + |q.rx|)
  {
    CloseFreesTheRest(l.q, f);
    assert l.q.log.discarded == [] && [] + l.q.rx == l.q.rx;
  }

  // ---- One packet, all the way ----

  /** Up, idle and empty. */
  ghost predicate Idle(q: Queue) {
    && q.up && q.tx == [] && q.rx == [] && q.sig == Signals(false, false, false, false, false)
    && q.poll.stage == NotRunning && q.poll.txSkb == [] && q.poll.copy == [] && q.poll.rxSkb == []
  }

  /** The packet is transmitted, the timer brings NAPI about, the poll starts. */
  lemma Kicked(l: Life, f: Filter, skb: Skb, budget: nat)
    requires Idle(l.q)
    ensures var a := After(l, f, Xmit(skb));
      && Can(l.q, Xmit(skb)) && Can(a.q, ArmTimer) && var b := After(a, f, ArmTimer);
      && Can(b.q, TimerExpires) && var c := After(b, f, TimerExpires);
      && Can(c.q, TimerHandler) && var d := After(c, f, TimerHandler);
      && Can(d.q, StartPoll(budget)) && After(d, f, StartPoll(budget)) == Polling(l, skb, budget)
  {
  }

  ghost function Polling(l: Life, skb: Skb, budget: nat): Life {
    Life(l.q.(tx := [skb], sig := Signals(false, false, false, true, false),
              poll := l.q.poll.(stage := Drain, budget := budget, work := 0),
              log := l.q.log.(sent := l.q.log.sent + [skb])), l.s)
  }

  /** One section more. */
  lemma OneMore(l: Life, f: Filter, luck: Luck, k: nat, t: Life, n: Life)
    requires Turns(l, f, luck, k) == t && After(t, f, Turn(luck)) == n
    ensures Turns(l, f, luck, k + 1) == n
  {
  }

  /** The same, counted from a state on the way. */
  lemma ThreeMore(l: Life, f: Filter, luck: Luck, k: nat, t: Life)
    requires Turns(l, f, luck, k) == t
    ensures Turns(l, f, luck, k + 3) == Turns(t, f, luck, 3)
  {
    var a, b, c := After(t, f, Turn(luck)), Turns(t, f, luck, 2), Turns(t, f, luck, 3);
    assert Turns(t, f, luck, 0) == t && Turns(t, f, luck, 1) == a;
    OneMore(l, f, luck, k, t, a);
    OneMore(l, f, luck, k + 1, a, b);
    OneMore(l, f, luck, k + 2, b, c);
  }

  /** Both rings empty and budget left: the poll completes. */
  lemma Ended(l: Life, f: Filter, luck: Luck, j: nat, t: Life) returns (k: nat)
    requires Turns(l, f, luck, j) == t && AtDeliver(t.q) && t.q.rx == [] && t.q.poll.work < t.q.poll.budget
    requires !t.q.sig.missed
    ensures Turns(l, f, luck, k) ==
      Life(t.q.(poll := t.q.poll.(stage := NotRunning), sig := t.q.sig.(sched := false)), t.s)
  {
    LoopEnds(t, f, luck);
    var n := Life(t.q.(poll := t.q.poll.(stage := Finish)), t.s);
    OneMore(l, f, luck, j, t, n);
    LoopEnds(n, f, luck);
    OneMore(l, f, luck, j + 1, n, After(n, f, Turn(luck)));
    k := j + 2;
  }

  /** After the only packet the drain loop finds the TX ring empty. */
  ghost function Dry(a: Life, f: Filter, luck: Luck, v: Verdict): Life
    requires a.q.tx != []
  {
    var b := Drained(a, f, luck, v);
    Life(b.q.(poll := b.q.poll.(stage := Deliver)), b.s)
  }

  lemma DrainsDry(a: Life, f: Filter, luck: Luck, skb: Skb)
    requires AtDrain(a.q) && a.q.tx == [skb] && a.q.rx == [] && a.q.poll.work + 1 < a.q.poll.budget
    ensures var t := Dry(a, f, luck, Judge(luck, f, skb.dst, 0));
      Turns(a, f, luck, 5) == t && AtDeliver(t.q)
  {
    var v := Judge(luck, f, skb.dst, 0);
    DrainOneAlone(a, f, luck);
    LoopEnds(Drained(a, f, luck, v), f, luck);
    OneMore(a, f, luck, 4, Drained(a, f, luck, v), Dry(a, f, luck, v));
  }

  /** Idle again, with this much more in the log and on the counters. */
  ghost predicate Settled(l: Life, t: Life, skb: Skb, passed: bool) {
    && Idle(t.q) && t.q.log.sent == l.q.log.sent + [skb] && t.q.log.freed == l.q.log.freed + [skb]
    && t.q.log.delivered == l.q.log.delivered + (if passed then [skb] else [])
    && t.s.txPackets == l.s.txPackets + 1
    && t.s.rxPackets == l.s.rxPackets + (if passed then 1 else 0)
    && t.s.rxDropped == l.s.rxDropped + (if passed then 0 else 1)
  }

  lemma RefusedThrough(l: Life, f: Filter, luck: Luck, skb: Skb, budget: nat) returns (k: nat)
    requires Idle(l.q) && budget >= 3 && RefusedAtOnce(luck, f, skb.dst)
    ensures Settled(l, Turns(Polling(l, skb, budget), f, luck, k), skb, false)
  {
    var a := Polling(l, skb, budget);
    DrainsDry(a, f, luck, skb);
    k := Ended(a, f, luck, 5, Dry(a, f, luck, Judge(luck, f, skb.dst, 0)));
  }

  /** A packet that may pass is in the RX ring when the deliver loop begins, and goes up. */
  lemma GoesUp(a: Life, f: Filter, luck: Luck, skb: Skb)
    requires AtDrain(a.q) && a.q.tx == [skb] && a.q.rx == [] && a.q.poll.work + 2 < a.q.poll.budget
    requires !RefusedAtOnce(luck, f, skb.dst)
    ensures var c := Dry(a, f, luck, Passed(f));
      Turns(a, f, luck, 5) == c && AtDeliver(c.q) && c.q.rx == [skb] && c.q.poll.work + 1 < c.q.poll.budget
  {
    DrainsDry(a, f, luck, skb);
  }

  lemma WentUp(c: Life, f: Filter, luck: Luck, skb: Skb)
    requires AtDeliver(c.q) && c.q.rx == [skb] && c.q.poll.work + 1 < c.q.poll.budget
    ensures var d := Delivered(c);
      && Turns(c, f, luck, 3) == d && AtDeliver(d.q) && d.q.rx == []
      && d.q.poll.work < d.q.poll.budget && d.q.sig == c.q.sig
  {
    DeliverOneAlone(c, f, luck);
  }

  lemma UpAndIdle(l: Life, f: Filter, luck: Luck, skb: Skb, budget: nat, c: Life, t: Life)
    requires Idle(l.q) && !RefusedAtOnce(luck, f, skb.dst)
    requires c == Dry(Polling(l, skb, budget), f, luck, Passed(f)) && c.q.rx == [skb]
    requires var d := Delivered(c);
      t == Life(d.q.(poll := d.q.poll.(stage := NotRunning), sig := d.q.sig.(sched := false)), d.s)
    ensures Settled(l, t, skb, true)
  {
  }

  lemma PassedThrough(l: Life, f: Filter, luck: Luck, skb: Skb, budget: nat) returns (k: nat)
    requires Idle(l.q) && budget >= 3 && !RefusedAtOnce(luck, f, skb.dst)
    ensures Settled(l, Turns(Polling(l, skb, budget), f, luck, k), skb, true)
  {
    var a := Polling(l, skb, budget);
    var c := Dry(a, f, luck, Passed(f));
    GoesUp(a, f, luck, skb);
    WentUp(c, f, luck, skb);
    ThreeMore(a, f, luck, 5, c);
    k := Ended(a, f, luck, 8, Delivered(c));
    UpAndIdle(l, f, luck, skb, budget, c, Turns(a, f, luck, k));
  }

  /**
   A packet transmitted on an idle queue goes up to the stack if and only if copy, header and filter let it, and
   the queue is idle again; the counters say which it was.
   */
  lemma OnePacketThrough(l: Life, f: Filter, luck: Luck, skb: Skb, budget: nat) returns (k: nat)
    requires Idle(l.q) && budget >= 3
    ensures Settled(l, Turns(Polling(l, skb, budget), f, luck, k), skb, !RefusedAtOnce(luck, f, skb.dst))
  {
    if RefusedAtOnce(luck, f, skb.dst) {
      k := RefusedThrough(l, f, luck, skb, budget);
    } else {
      k := PassedThrough(l, f, luck, skb, budget);
    }
  }
}
