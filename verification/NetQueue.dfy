/**
 One queue of the impair driver: the NAPI poll that moves packets from the TX ring through the filter
 to the RX ring and up.
 */
module NetQueue {
  import opened Common
  import opened RxFilter
  import opened NetRing

  /** What the allocator does for one packet: `skb_copy` and `pskb_may_pull` of an Ethernet header. */
  datatype Luck = Luck(copied: bool, pulled: bool)

  /** What becomes of one transmitted packet. */
  datatype Verdict = NoCopy | TooShort | Filtered(filter: Filter) | NoRoom | Passed(filter: Filter)

  function Judge(luck: Luck, f: Filter, dst: Mac, rxUsed: nat): (v: Verdict)
    ensures v.Passed? <==> luck.copied && luck.pulled && Accepts(f, dst) && rxUsed < RING_SIZE - 1
    ensures v.NoCopy? <==> !luck.copied
    ensures v.TooShort? <==> luck.copied && !luck.pulled
    ensures v == Filtered(f) <==> luck.copied && luck.pulled && !Accepts(f, dst)
  {
    if !luck.copied then NoCopy
    else if !luck.pulled then TooShort
    else if !Accepts(f, dst) then Filtered(f)
    else if rxUsed >= RING_SIZE - 1 then NoRoom
    else Passed(f)
  }

  /** The packets that passed, in order. */
  function Select(pkts: seq<Skb>, verdicts: seq<Verdict>): (r: seq<Skb>)
    requires |pkts| == |verdicts|
    ensures |r| <= |pkts|
  {
    if pkts == [] then []
    else
      var n := |pkts| - 1;
      Select(pkts[..n], verdicts[..n]) + if verdicts[n].Passed? then [pkts[n]] else []
  }

  lemma SelectStep(pkts: seq<Skb>, verdicts: seq<Verdict>, p: Skb, v: Verdict)
    requires |pkts| == |verdicts|
    ensures Select(pkts + [p], verdicts + [v]) == Select(pkts, verdicts) + if v.Passed? then [p] else []
  {
    assert (pkts + [p])[..|pkts|] == pkts && (verdicts + [v])[..|pkts|] == verdicts;
  }

  /** The packets whose copy was made and thrown away again, in order. */
  function Spoilt(pkts: seq<Skb>, verdicts: seq<Verdict>): (r: seq<Skb>)
    requires |pkts| == |verdicts|
  {
    if pkts == [] then []
    else
      var n := |pkts| - 1;
      Spoilt(pkts[..n], verdicts[..n]) + if verdicts[n].Passed? || verdicts[n].NoCopy? then [] else [pkts[n]]
  }

  lemma SpoiltStep(pkts: seq<Skb>, verdicts: seq<Verdict>, p: Skb, v: Verdict)
    requires |pkts| == |verdicts|
    ensures Spoilt(pkts + [p], verdicts + [v]) ==
      Spoilt(pkts, verdicts) + if v.Passed? || v.NoCopy? then [] else [p]
  {
    assert (pkts + [p])[..|pkts|] == pkts && (verdicts + [v])[..|pkts|] == verdicts;
  }

  /** The verdicts an undisturbed drain reaches: each depends on the room left by the packets that passed before. */
  function Verdicts(pkts: seq<Skb>, luck: seq<Luck>, f: Filter, rxUsed: nat): (v: seq<Verdict>)
    requires |pkts| <= |luck|
    ensures |v| == |pkts|
  {
    if pkts == [] then []
    else
      var n := |pkts| - 1;
      var before := Verdicts(pkts[..n], luck, f, rxUsed);
      before + [Judge(luck[n], f, pkts[n].dst, rxUsed + |Select(pkts[..n], before)|)]
  }

  function Bytes(pkts: seq<Skb>): nat {
    if pkts == [] then 0 else Bytes(pkts[..|pkts| - 1]) + pkts[|pkts| - 1].len
  }

  function Groups(pkts: seq<Skb>): nat {
    if pkts == [] then 0
    else Groups(pkts[..|pkts| - 1]) + if IsGroup(pkts[|pkts| - 1].dst) then 1 else 0
  }

  lemma BytesAndGroups(skb: Skb)
    ensures Bytes([]) == Groups([]) == 0
    ensures Bytes([skb]) == skb.len && Groups([skb]) == skb.dst.b0 % 2
  {
    assert [skb][..0] == [];
  }

  /** Bytes and group packets of a queue are those of its two parts, wherever it is cut. */
  lemma {:induction false} BytesAdd(a: seq<Skb>, b: seq<Skb>)
    ensures Bytes(a + b) == Bytes(a) + Bytes(b) && Groups(a + b) == Groups(a) + Groups(b)
    decreases |b|
  {
    if b == [] {
      assert a + b == a;
    } else {
      var n := |b| - 1;
      assert (a + b)[..|a| + n] == a + b[..n];
      BytesAdd(a, b[..n]);
    }
  }

  /** The members of `rtnl_link_stats64` the data path updates. */
  datatype Stats = Stats(txPackets: nat, txBytes: nat, rxPackets: nat, rxBytes: nat, rxDropped: nat, multicast: nat)

  /** The statistics after the packets `sent` left the TX ring and `passed` of them reached the RX ring. */
  function Account(s0: Stats, sent: seq<Skb>, passed: seq<Skb>): Stats
    requires |passed| <= |sent|
  {
    s0.(txPackets := s0.txPackets + |sent|,
        txBytes := s0.txBytes + Bytes(sent),
        rxDropped := s0.rxDropped + |sent| - |passed|,
        multicast := s0.multicast + Groups(passed))
  }

  function AccountOne(s: Stats, skb: Skb, passes: bool): Stats {
    s.(txPackets := s.txPackets + 1,
       txBytes := s.txBytes + skb.len,
       rxDropped := s.rxDropped + (if passes then 0 else 1),
       multicast := s.multicast + (if passes && IsGroup(skb.dst) then 1 else 0))
  }

  /** What a drain that started with RX contents `rx0` lets through. */
  function Through(sent: seq<Skb>, luck: seq<Luck>, f: Filter, rx0: seq<Skb>): (passed: seq<Skb>)
    requires |sent| <= |luck|
    ensures |passed| <= |sent|
  {
    Select(sent, Verdicts(sent, luck, f, |rx0|))
  }

  lemma ThroughStep(sent: seq<Skb>, luck: seq<Luck>, f: Filter, rx0: seq<Skb>, skb: Skb, s0: Stats)
    requires |sent| < |luck|
    ensures var passed := Through(sent, luck, f, rx0);
      var v := Judge(luck[|sent|], f, skb.dst, |rx0| + |passed|);
      && Through(sent + [skb], luck, f, rx0) == (if v.Passed? then passed + [skb] else passed)
      && Account(s0, sent + [skb], Through(sent + [skb], luck, f, rx0))
         == AccountOne(Account(s0, sent, passed), skb, v.Passed?)
  {
    var before := Verdicts(sent, luck, f, |rx0|);
    var passed := Select(sent, before);
    var v := Judge(luck[|sent|], f, skb.dst, |rx0| + |passed|);
    assert (sent + [skb])[..|sent|] == sent && (passed + [skb])[..|passed|] == passed;
    assert Verdicts(sent + [skb], luck, f, |rx0|) == before + [v];
    SelectStep(sent, before, skb, v);
  }

  lemma AppendOne(a: seq<Skb>, b: seq<Skb>, skb: Skb)
    ensures (a + b) + [skb] == a + (b + [skb])
  {
  }

  lemma ShiftOne(taken: seq<Skb>, queue: seq<Skb>)
    requires queue != []
    ensures (taken + [queue[0]]) + queue[1..] == taken + queue
  {
  }

  /** One turn of the drain loop: every sequence it grows, grows by the packet at the head of the queue. */
  lemma DrainTurn(sent: seq<Skb>, queue: seq<Skb>, luck: seq<Luck>, f: Filter,
                  rx0: seq<Skb>, freed0: seq<Skb>, s0: Stats)
    requires queue != [] && |sent| < |luck|
    ensures var skb, passed := queue[0], Through(sent, luck, f, rx0);
      var passes := Judge(luck[|sent|], f, skb.dst, |rx0 + passed|).Passed?;
      && (sent + [skb]) + queue[1..] == sent + queue
      && (freed0 + sent) + [skb] == freed0 + (sent + [skb])
      && rx0 + Through(sent + [skb], luck, f, rx0) == (if passes then (rx0 + passed) + [skb] else rx0 + passed)
      && Account(s0, sent + [skb], Through(sent + [skb], luck, f, rx0))
         == AccountOne(Account(s0, sent, passed), skb, passes)
  {
    ThroughStep(sent, luck, f, rx0, queue[0], s0);
    ShiftOne(sent, queue);
    AppendOne(freed0, sent, queue[0]);
    AppendOne(rx0, Through(sent, luck, f, rx0), queue[0]);
  }

  class QVector {
    const tx: ImpairRing
    const rx: ImpairRing
    var stopped: bool         // the netdev TX queue
    var scheduled: bool       // NAPI_STATE_SCHED
    var stats: Stats
    var freed: seq<Skb>       // packets given back by kfree_skb after transmission, in order
    var delivered: seq<Skb>   // packets handed to napi_gro_receive, in order

    constructor ()
      ensures Valid() && fresh(tx) && fresh(rx) && fresh(tx.desc) && fresh(rx.desc)
      ensures tx.live == rx.live == freed == delivered == [] && stats == Stats(0, 0, 0, 0, 0, 0)
    {
      tx := new ImpairRing();
      rx := new ImpairRing();
      stopped, scheduled, stats, freed, delivered := false, false, Stats(0, 0, 0, 0, 0, 0), [], [];
      new;
      var ok := tx.Init(RING_SIZE);
      ok := rx.Init(RING_SIZE);
    }

    ghost predicate Valid()
      reads this, tx, rx, tx.desc, rx.desc
    {
      tx != rx && tx.desc != rx.desc && tx.Valid() && rx.Valid()
    }

    /** `impair_tx` up to the timer: NETDEV_TX_BUSY stops the queue, NETDEV_TX_OK enqueues. */
    method Xmit(skb: Skb) returns (ok: bool)
      requires Valid()
      modifies this`stopped, tx, tx.desc
      ensures Valid()
      ensures ok <==> |old(tx.live)| < RING_SIZE - 1
      ensures tx.live == if ok then old(tx.live) + [skb] else old(tx.live)
      ensures rx.live == old(rx.live)
      ensures stopped == (old(stopped) || !ok)
    {
      ok := tx.Push(skb);
      if !ok {
        stopped := true;
      }
    }

    /** The first locked section of the drain loop: pop, and wake a stopped queue now that a slot is free. */
    method PopTx() returns (head: Option<Skb>)
      requires Valid()
      modifies this`stopped, tx, tx.desc
      ensures Valid() && rx.live == old(rx.live)
      ensures old(tx.live) == [] ==> head == None && tx.live == [] && stopped == old(stopped)
      ensures old(tx.live) != [] ==>
        head == Some(old(tx.live)[0]) && tx.live == old(tx.live)[1..] && !stopped
    {
      head := tx.Pop();
      if head.Some? && stopped && tx.Free() > 0 {
        stopped := false;
      }
    }

    /** The body of the drain loop from the copy of one packet to its completion. */
    method Forward(skb: Skb, filter: Filter, luck: Luck)
      requires rx.Valid()
      modifies this`stats, rx, rx.desc
      ensures rx.Valid()
      ensures var passes := Judge(luck, filter, skb.dst, |old(rx.live)|).Passed?;
        && rx.live == (if passes then old(rx.live) + [skb] else old(rx.live))
        && stats == AccountOne(old(stats), skb, passes)
    {
      var accepted := false;
      if luck.copied && luck.pulled {
        accepted := RxAccept(filter, skb.dst);
      }
      var pushed := false;
      if accepted {
        pushed := rx.Push(skb);
      }
      if !pushed {
        stats := stats.(rxDropped := stats.rxDropped + 1);
      } else if IsGroup(skb.dst) {
        stats := stats.(multicast := stats.multicast + 1);
      }
      stats := stats.(txPackets := stats.txPackets + 1, txBytes := stats.txBytes + skb.len);
    }

    /** One turn of the drain loop; `more` is false when the TX ring was found empty. */
    method DrainOne(filter: Filter, luck: Luck) returns (more: bool)
      requires Valid()
      modifies this`stopped, this`stats, this`freed, tx, tx.desc, rx, rx.desc
      ensures Valid() && (more <==> old(tx.live) != [])
      ensures !more ==>
        && tx.live == [] && stopped == old(stopped)
        && freed == old(freed) && rx.live == old(rx.live) && stats == old(stats)
      ensures more ==>
        var skb := old(tx.live)[0];
        var passes := Judge(luck, filter, skb.dst, |old(rx.live)|).Passed?;
        && tx.live == old(tx.live)[1..] && freed == old(freed) + [skb] && !stopped
        && rx.live == (if passes then old(rx.live) + [skb] else old(rx.live))
        && stats == AccountOne(old(stats), skb, passes)
    {
      var head := PopTx();
      if head.None? {
        return false;
      }
      Forward(head.value, filter, luck);
      freed := freed + [head.value];
      more := true;
    }

    /** `impair_rx_drain` with no other user of the queue in between; `sent` is what it took off the TX ring. */
    method Drain(budget: nat, filter: Filter, luck: seq<Luck>) returns (work: nat, ghost sent: seq<Skb>)
      requires Valid() && |luck| == budget
      modifies this`stopped, this`stats, this`freed, tx, tx.desc, rx, rx.desc
      ensures Valid()
      ensures work == |sent| == Min(budget, |old(tx.live)|)
      ensures sent + tx.live == old(tx.live)
      ensures freed == old(freed) + sent
      ensures stopped == (old(stopped) && work == 0)
      ensures rx.live == old(rx.live) + Through(sent, luck, filter, old(rx.live))
      ensures stats == Account(old(stats), sent, Through(sent, luck, filter, old(rx.live)))
      // the counters, by what left the TX ring and what came into the RX ring
      ensures stats.txPackets == old(stats).txPackets + work && stats.txBytes == old(stats).txBytes + Bytes(sent)
      ensures stats.rxDropped == old(stats).rxDropped + work - (|rx.live| - |old(rx.live)|)
      ensures stats.multicast == old(stats).multicast + Groups(rx.live[|old(rx.live)|..])
      ensures stats.rxPackets == old(stats).rxPackets && stats.rxBytes == old(stats).rxBytes
    {
      work, sent := 0, [];
      ghost var tx0, rx0, s0, freed0 := tx.live, rx.live, stats, freed;
      while work < budget
        invariant Valid() && work == |sent| <= budget
        invariant sent + tx.live == tx0 && freed == freed0 + sent
        invariant stopped == (old(stopped) && work == 0)
        invariant rx.live == rx0 + Through(sent, luck, filter, rx0)
        invariant stats == Account(s0, sent, Through(sent, luck, filter, rx0))
      {
        ghost var queue := tx.live;
        var more := DrainOne(filter, luck[work]);
        if !more {
          break;
        }
        DrainTurn(sent, queue, luck, filter, rx0, freed0, s0);
        sent := sent + [queue[0]];
        work := work + 1;
      }
      assert rx.live[|rx0|..] == Through(sent, luck, filter, rx0);
    }

    /** `impair_rx_deliver` with no other user of the queue in between; `up` is what it handed to the stack. */
    method Deliver(budget: int) returns (work: nat, ghost up: seq<Skb>)
      requires Valid()
      modifies this`stats, this`delivered, rx, rx.desc
      ensures Valid()
      ensures work == |up| == Min(if budget > 0 then budget else 0, |old(rx.live)|)
      ensures up + rx.live == old(rx.live)
      ensures delivered == old(delivered) + up
      ensures stats == old(stats).(
        rxPackets := old(stats).rxPackets + work,
        rxBytes := old(stats).rxBytes + Bytes(up))
    {
      work, up := 0, [];
      ghost var rx0, s0, delivered0 := rx.live, stats, delivered;
      while work < budget
        invariant Valid() && work == |up| && (work > 0 ==> work <= budget)
        invariant up + rx.live == rx0 && delivered == delivered0 + up
        invariant stats == s0.(rxPackets := s0.rxPackets + work, rxBytes := s0.rxBytes + Bytes(up))
      {
        ghost var queue := rx.live;
        var head := rx.Pop();
        if head.None? {
          break;
        }
        var skb := head.value;
        stats := stats.(rxPackets := stats.rxPackets + 1, rxBytes := stats.rxBytes + skb.len);
        delivered := delivered + [skb];
        ShiftOne(up, queue);
        AppendOne(delivered0, up, skb);
        assert (up + [skb])[..|up|] == up;
        up := up + [skb];
        work := work + 1;
      }
    }

    /** `impair_poll`: NAPI completes exactly when the budget was not used up, and then both rings are empty. */
    method Poll(budget: nat, filter: Filter, luck: seq<Luck>)
      returns (work: nat, ghost sent: seq<Skb>, ghost up: seq<Skb>)
      requires Valid() && |luck| == budget && scheduled
      modifies this`stopped, this`stats, this`freed, this`delivered, this`scheduled, tx, tx.desc, rx, rx.desc
      ensures Valid() && work == |sent| + |up| <= budget
      ensures scheduled <==> work == budget
      ensures !scheduled ==> tx.live == [] && rx.live == []
      ensures sent + tx.live == old(tx.live) && freed == old(freed) + sent
      ensures delivered == old(delivered) + up
      ensures up + rx.live == old(rx.live) + Through(sent, luck, filter, old(rx.live))
      ensures |sent| == Min(budget, |old(tx.live)|)
      ensures |up| == Min(budget - |sent|, |old(rx.live)| + |Through(sent, luck, filter, old(rx.live))|)
      ensures stats.txPackets - stats.rxPackets - stats.rxDropped - |rx.live|
           == old(stats.txPackets - stats.rxPackets - stats.rxDropped - |rx.live|)
    {
      up := [];
      work, sent := Drain(budget, filter, luck);
      if work < budget {
        var more;
        more, up := Deliver(budget - work);
        work := work + more;
      }
      if work < budget {
        scheduled := false;
      }
    }
  }
}
