/**
 All queues of the impair driver under interleaving: producers, the timer,
 NAPI, the drain and deliver loops, filter changes, the watchdog, close and
 reopen, with one step per locked section or atomic NAPI operation.
 */
module NetProtocol {
  import opened Common
  import opened RxFilter
  import opened NetRing
  import opened NetQueue

  /** Where the poll of one queue stands. */
  datatype Stage =
    | NotRunning
    | Drain       // at the drain loop condition
    | Got         // popped from the TX ring
    | Admitted    // copied and accepted, to be pushed
    | Rejected    // drop decided, to be counted
    | Forwarded   // to be completed
    | Deliver     // at the deliver loop condition
    | Carrying    // popped from the RX ring
    | Counted     // rx_packets updated, to be handed up
    | Finish      // both loops left

  /**
   The locals of `impair_poll`: `work` is the sum of both loops, `seen` the copied filter; the packet and the copy
   of the drain loop and the packet of the deliver loop are sequences of at most one.
   */
  datatype Poll = Poll(
    stage: Stage, budget: nat, work: nat,
    txSkb: seq<Skb>, copy: seq<Skb>, rxSkb: seq<Skb>,
    seen: Filter)

  /** What brings the poll about: a transmit before its mod_timer, the timer, its handler, two NAPI state bits. */
  datatype Signals = Signals(producer: bool, timer: bool, firing: bool, sched: bool, missed: bool)

  /** What has happened since the queue was brought up. */
  datatype Log = Log(
    sent: seq<Skb>,             // accepted by impair_tx, in order
    verdicts: seq<Verdict>,     // decided by the drain loop, in order
    freed: seq<Skb>,            // freed on the TX side, in order
    spoilt: seq<Skb>,           // copies freed by the drain loop, in order
    delivered: seq<Skb>,        // handed to the stack, in order
    discarded: seq<Skb>         // RX packets freed at close
  )

  /** `up`: rings allocated, timer and NAPI enabled. */
  datatype Queue = Queue(up: bool, stopped: bool, tx: seq<Skb>, rx: seq<Skb>, sig: Signals, poll: Poll, log: Log)

  const FRESH := Queue(true, false, [], [], Signals(false, false, false, false, false),
                       Poll(NotRunning, 0, 0, [], [], [], Filter(false, false, BROADCAST, [])),
                       Log([], [], [], [], [], []))

  datatype Totals = Totals(txPackets: nat, rxPackets: nat, rxDropped: nat, discarded: nat)

  datatype State = State(queues: seq<Queue>, filter: Filter, stats: Totals)

  datatype Action =
    | Xmit(skb: Skb)            // impair_tx up to the unlock
    | ArmTimer                  // its mod_timer
    | Watchdog                  // impair_tx_timeout
    | TimerExpires
    | TimerHandler
    | StartPoll(budget: nat)
    | Turn(luck: Luck)          // the next locked section of impair_poll
    | Close
    | Reopen

  datatype Step = On(q: nat, action: Action) | SetFilter(filter: Filter)

  ghost predicate Can(q: Queue, a: Action) {
    match a
    case Xmit(_) => q.up && !q.sig.producer          // the stack serialises transmits per queue
    case ArmTimer => q.sig.producer
    case Watchdog => q.up && q.stopped
    case TimerExpires => q.sig.timer
    case TimerHandler => q.sig.firing
    case StartPoll(_) => q.up && q.sig.sched && q.poll.stage == NotRunning
    case Turn(_) => q.poll.stage != NotRunning
    // the stack has deactivated the queue, the timer handler and the poll have been waited for
    case Close => q.up && !q.sig.producer && !q.sig.firing && q.poll.stage == NotRunning
    case Reopen => !q.up
  }

  /** The TX ring section of the drain loop. */
  ghost function DrainPop(q: Queue): Queue {
    var p := q.poll;
    if p.work >= p.budget then q.(poll := p.(stage := Finish))
    else if q.tx == [] then q.(poll := p.(stage := Deliver))
    else q.(tx := q.tx[1..], stopped := false, poll := p.(stage := Got, txSkb := [q.tx[0]]))
  }

  /** Copy, header pull and filter; space in the RX ring is looked at later, under its own lock. */
  ghost function DrainFilter(q: Queue, f: Filter, luck: Luck): Queue
    requires q.poll.txSkb != []
  {
    var v := Judge(luck, f, q.poll.txSkb[0].dst, 0);
    var t := q.(poll := q.poll.(copy := if luck.copied then q.poll.txSkb else []));
    if v.Passed? then t.(poll := t.poll.(stage := Admitted, seen := f)) else Refuse(t, v)
  }

  ghost function Refuse(q: Queue, v: Verdict): Queue {
    q.(poll := q.poll.(stage := Rejected), log := q.log.(verdicts := q.log.verdicts + [v]))
  }

  /** The RX ring section. */
  ghost function DrainPush(q: Queue): Queue {
    if |q.rx| >= RING_SIZE - 1 then Refuse(q, NoRoom)
    else
      q.(rx := q.rx + q.poll.copy, poll := q.poll.(stage := Forwarded, copy := []),
         log := q.log.(verdicts := q.log.verdicts + [Passed(q.poll.seen)]))
  }

  /** The drop is counted and the copy, if there is one, freed. */
  ghost function DrainSpoil(q: Queue): Queue {
    q.(poll := q.poll.(stage := Forwarded, copy := []), log := q.log.(spoilt := q.log.spoilt + q.poll.copy))
  }

  /** The completion of one packet. */
  ghost function DrainComplete(q: Queue): Queue {
    q.(poll := q.poll.(stage := Drain, work := q.poll.work + 1, txSkb := []),
       log := q.log.(freed := q.log.freed + q.poll.txSkb))
  }

  /** One locked section of `impair_rx_deliver`. */
  ghost function DeliverTurn(q: Queue): Queue {
    var p := q.poll;
    match p.stage
    case Deliver =>
      if p.work >= p.budget || q.rx == [] then q.(poll := p.(stage := Finish))
      else q.(rx := q.rx[1..], poll := p.(stage := Carrying, rxSkb := [q.rx[0]]))
    case Carrying => q.(poll := p.(stage := Counted))
    case Counted =>
      q.(poll := p.(stage := Deliver, work := p.work + 1, rxSkb := []),
         log := q.log.(delivered := q.log.delivered + p.rxSkb))
    case _ => q
  }

  /** The end of `impair_poll`; in `napi_complete_done` a missed schedule keeps the queue scheduled. */
  ghost function FinishTurn(q: Queue): Queue {
    var idle := q.poll.(stage := NotRunning);
    if q.poll.work < q.poll.budget
    then q.(sig := q.sig.(sched := q.sig.missed, missed := false), poll := idle)
    else q.(poll := idle)
  }

  ghost predicate InDrain(s: Stage) {
    s.Drain? || s.Got? || s.Admitted? || s.Rejected? || s.Forwarded?
  }

  ghost function Turned(q: Queue, f: Filter, luck: Luck): Queue {
    match q.poll.stage
    case Drain => DrainPop(q)
    case Got => if q.poll.txSkb == [] then q else DrainFilter(q, f, luck)
    case Admitted => DrainPush(q)
    case Rejected => DrainSpoil(q)
    case Forwarded => DrainComplete(q)
    case Finish => FinishTurn(q)
    case _ => DeliverTurn(q)
  }

  ghost function Signalled(q: Queue, a: Action): Signals {
    match a
    case ArmTimer => q.sig.(timer := true, producer := false)
    case Watchdog => q.sig.(timer := true)
    case TimerExpires => q.sig.(timer := false, firing := true)
    case TimerHandler =>
      if q.sig.sched then q.sig.(firing := false, missed := true) else q.sig.(firing := false, sched := true)
    case _ => q.sig
  }

  ghost function Act(q: Queue, f: Filter, a: Action): Queue {
    match a
    case Xmit(skb) =>
      if |q.tx| >= RING_SIZE - 1 then q.(stopped := true)
      else q.(tx := q.tx + [skb], sig := q.sig.(producer := true), log := q.log.(sent := q.log.sent + [skb]))
    case Watchdog => q.(sig := Signalled(q, a), stopped := false)
    case StartPoll(budget) => q.(poll := q.poll.(stage := Drain, budget := budget, work := 0))
    case Turn(luck) => Turned(q, f, luck)
    case Close =>
      q.(up := false, tx := [], rx := [], stopped := true, sig := q.sig.(timer := false),
         log := q.log.(freed := q.log.freed + q.tx, discarded := q.log.discarded + q.rx))
    case Reopen => FRESH
    case _ => q.(sig := Signalled(q, a))
  }

  /** The statistics are updated in the same locked sections. */
  ghost function Account(q: Queue, a: Action, s: Totals): Totals {
    match a
    case Turn(_) =>
      if q.poll.stage.Rejected? then s.(rxDropped := s.rxDropped + 1)
      else if q.poll.stage.Forwarded? then s.(txPackets := s.txPackets + 1)
      else if q.poll.stage.Carrying? then s.(rxPackets := s.rxPackets + 1)
      else s
    case Close => s.(discarded := s.discarded + |q.rx|)
    case _ => s
  }

  ghost predicate Enabled(s: State, step: Step) {
    step.On? ==> step.q < |s.queues| && Can(s.queues[step.q], step.action)
  }

  ghost function Apply(s: State, step: Step): State
    requires Enabled(s, step)
  {
    match step
    case SetFilter(f) => s.(filter := f)
    case On(i, a) =>
      State(s.queues[i := Act(s.queues[i], s.filter, a)], s.filter, Account(s.queues[i], a, s.stats))
  }

  // ---- What every queue keeps ----

  /** The running or scheduled poll is bound to look at the TX ring again. */
  ghost predicate WillLook(q: Queue) {
    && q.sig.sched
    && (|| q.sig.missed || q.poll.stage.NotRunning? || InDrain(q.poll.stage)
        || (q.poll.stage.Finish? && q.poll.work >= q.poll.budget))
  }

  /** No packet is left behind without somebody coming for it, and a stopped queue is full. */
  ghost predicate NotStranded(q: Queue) {
    && (q.up && q.tx != [] ==> q.sig.timer || q.sig.firing || q.sig.producer || WillLook(q))
    && (q.up && q.rx != [] ==> q.sig.sched && !(q.poll.stage.Finish? && q.poll.work < q.poll.budget))
    && (q.up && q.stopped ==> |q.tx| == RING_SIZE - 1)
  }

  /**
   Every accepted packet is in one place only: freed, in the hands of the drain loop, or in the ring;
   in transmit order.
   */
  ghost predicate TxOrdered(q: Queue) {
    q.log.sent == q.log.freed + q.poll.txSkb + q.tx
  }

  /** The RX copies are, in transmit order, exactly those of the packets that passed; each is in one place only. */
  ghost predicate RxOrdered(q: Queue) {
    && |q.log.verdicts| <= |q.log.sent|
    && Select(q.log.sent[..|q.log.verdicts|], q.log.verdicts) == q.log.delivered + q.poll.rxSkb + q.rx + q.log.discarded
  }

  /** The copies of the packets that did not pass have been freed, or the drain loop is about to free the last. */
  ghost predicate SpoiltOrdered(q: Queue) {
    && |q.log.verdicts| <= |q.log.sent|
    && Spoilt(q.log.sent[..|q.log.verdicts|], q.log.verdicts)
       == q.log.spoilt + if q.poll.stage.Rejected? then q.poll.copy else []
  }

  ghost predicate InHand(s: Stage) {
    s.Got? || s.Admitted? || s.Rejected? || s.Forwarded?
  }

  ghost predicate Decided(s: Stage) {
    s.Rejected? || s.Forwarded?
  }

  ghost predicate Sound(q: Queue) {
    && |q.tx| < RING_SIZE && |q.rx| < RING_SIZE
    && (|q.poll.txSkb| == if InHand(q.poll.stage) then 1 else 0)
    && (|q.poll.rxSkb| == if q.poll.stage.Carrying? || q.poll.stage.Counted? then 1 else 0)
    && (q.poll.stage.Admitted? ==> q.poll.copy == q.poll.txSkb)
    && (q.poll.copy == q.poll.txSkb || q.poll.copy == [])
    && (!q.poll.stage.Admitted? && !q.poll.stage.Rejected? ==> q.poll.copy == [])
    && (q.up && (q.poll.stage != NotRunning || q.sig.missed) ==> q.sig.sched)
    && (q.up ==> q.log.discarded == [])
    && (q.up ==> |q.log.verdicts| == |q.log.freed| + if Decided(q.poll.stage) then 1 else 0)
    && (!q.up ==> q.tx == [] && q.rx == [] && q.poll.stage == NotRunning)
    && (!q.up ==> !q.sig.producer && !q.sig.timer && !q.sig.firing)
  }

  ghost predicate QueueInv(q: Queue) {
    TxOrdered(q) && RxOrdered(q) && SpoiltOrdered(q) && Sound(q) && NotStranded(q)
  }

  /** One more verdict extends the selection, or the spoilt copies, by one packet at most. */
  lemma DecideOne(q: Queue, v: Verdict)
    requires TxOrdered(q) && |q.log.verdicts| == |q.log.freed| && |q.poll.txSkb| == 1
    ensures var n := |q.log.verdicts|;
      && n < |q.log.sent| && q.log.sent[n] == q.poll.txSkb[0]
      && Select(q.log.sent[..n + 1], q.log.verdicts + [v])
         == Select(q.log.sent[..n], q.log.verdicts) + (if v.Passed? then q.poll.txSkb else [])
      && Spoilt(q.log.sent[..n + 1], q.log.verdicts + [v])
         == Spoilt(q.log.sent[..n], q.log.verdicts) + (if v.Passed? || v.NoCopy? then [] else q.poll.txSkb)
  {
    var n := |q.log.verdicts|;
    var skb := q.poll.txSkb[0];
    assert q.poll.txSkb == [skb];
    assert q.log.sent[..n] == q.log.freed && q.log.sent[..n + 1] == q.log.freed + [skb];
    SelectStep(q.log.sent[..n], q.log.verdicts, skb, v);
    SpoiltStep(q.log.sent[..n], q.log.verdicts, skb, v);
  }

  lemma TakeHead(a: seq<Skb>, b: seq<Skb>)
    requires b != []
    ensures a + [] + b == a + [b[0]] + b[1..]
  {
  }

  lemma PopKeepsInv(q: Queue)
    requires QueueInv(q) && q.up && q.poll.stage.Drain? && q.poll.work < q.poll.budget && q.tx != []
    ensures QueueInv(DrainPop(q))
  {
    TakeHead(q.log.freed, q.tx);
    assert DrainPop(q).log == q.log && q.poll.txSkb == [];
  }

  lemma DrainPopKeepsInv(q: Queue)
    requires QueueInv(q) && q.up && q.poll.stage.Drain?
    ensures QueueInv(DrainPop(q))
  {
    if q.poll.work < q.poll.budget && q.tx != [] {
      PopKeepsInv(q);
    } else {
      assert DrainPop(q).log == q.log && DrainPop(q).tx == q.tx;
    }
  }

  /** Refusing the packet in hand, its copy in hand too if one was made. */
  lemma RefuseKeepsInv(q: Queue, v: Verdict, copy: seq<Skb>)
    requires QueueInv(q) && q.up && (q.poll.stage.Got? || q.poll.stage.Admitted?) && !v.Passed?
    requires copy == if v.NoCopy? then [] else q.poll.txSkb
    ensures QueueInv(Refuse(q.(poll := q.poll.(copy := copy)), v))
  {
    DecideOne(q, v);
    assert q.log.spoilt + [] == q.log.spoilt;
  }

  lemma PushOrder(delivered: seq<Skb>, rx: seq<Skb>, skb: seq<Skb>)
    ensures delivered + [] + rx + [] + skb == delivered + [] + (rx + skb) + []
  {
  }

  lemma PushPassedKeepsInv(q: Queue)
    requires QueueInv(q) && q.up && q.poll.stage.Admitted? && |q.rx| < RING_SIZE - 1
    ensures QueueInv(DrainPush(q))
  {
    DecideOne(q, Passed(q.poll.seen));
    PushOrder(q.log.delivered, q.rx, q.poll.txSkb);
  }

  lemma DrainPushKeepsInv(q: Queue)
    requires QueueInv(q) && q.up && q.poll.stage.Admitted?
    ensures QueueInv(DrainPush(q))
  {
    if |q.rx| >= RING_SIZE - 1 {
      RefuseKeepsInv(q, NoRoom, q.poll.copy);
    } else {
      PushPassedKeepsInv(q);
    }
  }

  lemma DrainCompleteKeepsInv(q: Queue)
    requires QueueInv(q) && q.up && q.poll.stage.Forwarded?
    ensures QueueInv(DrainComplete(q))
  {
    assert q.log.freed + q.poll.txSkb + q.tx == (q.log.freed + q.poll.txSkb) + [] + q.tx;
  }

  lemma DeliverTurnKeepsInv(q: Queue)
    requires QueueInv(q) && q.up && (q.poll.stage.Deliver? || q.poll.stage.Carrying? || q.poll.stage.Counted?)
    ensures QueueInv(DeliverTurn(q))
  {
    if q.poll.stage.Deliver? && q.rx != [] {
      TakeHead(q.log.delivered, q.rx);
    } else if q.poll.stage.Counted? {
      assert q.log.delivered + q.poll.rxSkb == (q.log.delivered + q.poll.rxSkb) + [];
    }
  }

  lemma DrainFilterKeepsInv(q: Queue, f: Filter, luck: Luck)
    requires QueueInv(q) && q.up && q.poll.stage.Got?
    ensures QueueInv(DrainFilter(q, f, luck))
  {
    var v := Judge(luck, f, q.poll.txSkb[0].dst, 0);
    if !v.Passed? {
      RefuseKeepsInv(q, v, if luck.copied then q.poll.txSkb else []);
    }
  }

  lemma DrainSpoilKeepsInv(q: Queue)
    requires QueueInv(q) && q.up && q.poll.stage.Rejected?
    ensures QueueInv(DrainSpoil(q))
  {
    assert q.log.spoilt + q.poll.copy == (q.log.spoilt + q.poll.copy) + [];
  }

  lemma FinishTurnKeepsInv(q: Queue)
    requires QueueInv(q) && q.up && q.poll.stage.Finish?
    ensures QueueInv(FinishTurn(q))
  {
  }

  lemma TurnKeepsInv(q: Queue, f: Filter, luck: Luck)
    requires QueueInv(q) && q.poll.stage != NotRunning
    ensures QueueInv(Turned(q, f, luck))
  {
    assert q.up && (q.poll.stage.Got? ==> q.poll.txSkb != []);
    match q.poll.stage
    case Drain => DrainPopKeepsInv(q);
    case Got => DrainFilterKeepsInv(q, f, luck);
    case Admitted => DrainPushKeepsInv(q);
    case Rejected => DrainSpoilKeepsInv(q);
    case Forwarded => DrainCompleteKeepsInv(q);
    case Finish => FinishTurnKeepsInv(q);
    case _ => DeliverTurnKeepsInv(q);
  }

  lemma CloseOrder(delivered: seq<Skb>, rx: seq<Skb>)
    ensures delivered + [] + rx + [] == delivered + [] + [] + ([] + rx)
  {
  }

  lemma CloseTxOrder(freed: seq<Skb>, tx: seq<Skb>)
    ensures freed + [] + tx == freed + tx == freed + tx + [] + []
  {
  }

  /** Close frees what is left in both rings, each packet once. */
  lemma CloseFreesTheRest(q: Queue, f: Filter)
    requires QueueInv(q) && Can(q, Close)
    ensures QueueInv(Act(q, f, Close)) && Act(q, f, Close).log.freed == q.log.sent
  {
    assert q.poll.txSkb == [] && q.poll.rxSkb == [] && q.log.discarded == [];
    CloseOrder(q.log.delivered, q.rx);
    CloseTxOrder(q.log.freed, q.tx);
  }

  lemma XmitOrder(freed: seq<Skb>, hand: seq<Skb>, tx: seq<Skb>, skb: Skb, n: nat)
    ensures freed + hand + (tx + [skb]) == freed + hand + tx + [skb]
    ensures var sent := freed + hand + tx;
      n <= |sent| ==> (sent + [skb])[..n] == sent[..n]
  {
  }

  lemma XmitKeepsQueueInv(q: Queue, f: Filter, skb: Skb)
    requires QueueInv(q) && Can(q, Xmit(skb))
    ensures QueueInv(Act(q, f, Xmit(skb)))
  {
    XmitOrder(q.log.freed, q.poll.txSkb, q.tx, skb, |q.log.verdicts|);
  }

  lemma ActKeepsQueueInv(q: Queue, f: Filter, a: Action)
    requires QueueInv(q) && Can(q, a)
    ensures QueueInv(Act(q, f, a))
  {
    match a
    case Turn(luck) => TurnKeepsInv(q, f, luck);
    case Xmit(skb) => XmitKeepsQueueInv(q, f, skb);
    case Close => CloseFreesTheRest(q, f);
    case _ =>
  }

  // ---- The statistics ----

  /** What one queue owes the global counters. */
  ghost function Owed(q: Queue): int {
    |q.rx| + (if q.poll.stage.Carrying? then 1 else 0) - (if q.poll.stage.Forwarded? then 1 else 0)
  }

  ghost function TotalOwed(qs: seq<Queue>): int {
    if qs == [] then 0 else TotalOwed(qs[..|qs| - 1]) + Owed(qs[|qs| - 1])
  }

  lemma {:induction false} OneQueueChanges(qs: seq<Queue>, i: nat, q: Queue)
    requires i < |qs|
    ensures TotalOwed(qs[i := q]) == TotalOwed(qs) - Owed(qs[i]) + Owed(q)
  {
    var n := |qs| - 1;
    if i == n {
      assert qs[i := q][..n] == qs[..n];
    } else {
      assert qs[i := q][..n] == qs[..n][i := q];
      OneQueueChanges(qs[..n], i, q);
    }
  }

  ghost predicate Balanced(s: State) {
    s.stats.txPackets == s.stats.rxPackets + s.stats.rxDropped + s.stats.discarded + TotalOwed(s.queues)
  }

  ghost predicate Inv(s: State) {
    (forall i :: 0 <= i < |s.queues| ==> QueueInv(s.queues[i])) && Balanced(s)
  }

  /** The counters move exactly by what the queue owes less. */
  lemma ActPaysDebt(q: Queue, f: Filter, a: Action, s: Totals)
    requires Sound(q) && Can(q, a)
    ensures var s' := Account(q, a, s);
      s'.txPackets - s'.rxPackets - s'.rxDropped - s'.discarded - Owed(Act(q, f, a))
      == s.txPackets - s.rxPackets - s.rxDropped - s.discarded - Owed(q)
  {
  }

  lemma StepKeepsInv(s: State, step: Step)
    requires Inv(s) && Enabled(s, step)
    ensures Inv(Apply(s, step))
  {
    if step.On? {
      var q := s.queues[step.q];
      var q' := Act(q, s.filter, step.action);
      ActKeepsQueueInv(q, s.filter, step.action);
      ActPaysDebt(q, s.filter, step.action, s.stats);
      OneQueueChanges(s.queues, step.q, q');
      QueuesKeepInv(s.queues, step.q, q');
    }
  }

  lemma QueuesKeepInv(qs: seq<Queue>, i: nat, q: Queue)
    requires i < |qs| && QueueInv(q) && forall k :: 0 <= k < |qs| ==> QueueInv(qs[k])
    ensures var qs' := qs[i := q];
      forall k :: 0 <= k < |qs'| ==> QueueInv(qs'[k])
  {
  }

  lemma {:induction false} FreshOwesNothing(qs: seq<Queue>)
    requires forall i :: 0 <= i < |qs| ==> qs[i] == FRESH
    ensures TotalOwed(qs) == 0
  {
    if qs != [] {
      FreshOwesNothing(qs[..|qs| - 1]);
    }
  }

  // ---- Main results ----

  ghost predicate Init(s: State)
    ensures Init(s) ==> Inv(s)
  {
    && (forall i :: 0 <= i < |s.queues| ==> s.queues[i] == FRESH)
    && (FreshOwesNothing(s.queues); s.stats == Totals(0, 0, 0, 0))
  }

  ghost function Run(s: State, trace: seq<Step>): (r: Option<State>)
    requires Inv(s)
    ensures r.Some? ==> Inv(r.value)
    decreases |trace|
  {
    if trace == [] then Some(s)
    else if !Enabled(s, trace[0]) then None
    else
      StepKeepsInv(s, trace[0]);
      Run(Apply(s, trace[0]), trace[1..])
  }

  // ---- An observer of one queue ----

  /** What the drain loop went by for one packet: the allocator, the filter committed when it was read, the RX ring. */
  datatype Grounds = Grounds(luck: Luck, filter: Filter, rxUsed: nat)

  /**
   What somebody sees who follows a run without looking at the log: the filters committed so far, what the
   drain loop read for the packet in hand, and the grounds of every decision.
   */
  datatype Watch = Watch(committed: seq<Filter>, look: Option<Grounds>, grounds: seq<Grounds>)

  /** The packet in hand is refused before the RX ring is looked at. */
  ghost predicate RefusedAtOnce(luck: Luck, f: Filter, dst: Mac) {
    !luck.copied || !luck.pulled || !Accepts(f, dst)
  }

  /** The observer sees the step `a` of the queue `q` while `f` is committed. */
  ghost function Seen(w: Watch, q: Queue, f: Filter, a: Action): Watch {
    if a.Reopen? then w.(look := None, grounds := [])
    else if a.Turn? && q.poll.stage.Got? && q.poll.txSkb != [] then
      var g := Grounds(a.luck, f, |q.rx|);
      if RefusedAtOnce(a.luck, f, q.poll.txSkb[0].dst) then w.(grounds := w.grounds + [g]) else w.(look := Some(g))
    else if a.Turn? && q.poll.stage.Admitted? && w.look.Some? then
      w.(look := None, grounds := w.grounds + [w.look.value.(rxUsed := |q.rx|)])
    else w
  }

  ghost function Watched(w: Watch, s: State, step: Step, i: nat): Watch
    requires i < |s.queues|
  {
    match step
    case SetFilter(f) => w.(committed := w.committed + [f])
    case On(k, a) => if k == i then Seen(w, s.queues[i], s.filter, a) else w
  }

  ghost predicate WellFounded(v: Verdict, g: Grounds, skb: Skb, committed: seq<Filter>) {
    v == Judge(g.luck, g.filter, skb.dst, g.rxUsed) && g.filter in committed && g.rxUsed < RING_SIZE
  }

  /** The verdicts are the ones the observer would have reached. */
  ghost predicate Agree(w: Watch, q: Queue) {
    && |w.grounds| == |q.log.verdicts| <= |q.log.sent|
    && (forall k :: 0 <= k < |w.grounds| ==>
        WellFounded(q.log.verdicts[k], w.grounds[k], q.log.sent[k], w.committed))
    && (q.poll.stage.Admitted? ==>
        && w.look.Some? && |q.poll.txSkb| == 1 && w.look.value.filter == q.poll.seen && q.poll.seen in w.committed
        && !RefusedAtOnce(w.look.value.luck, q.poll.seen, q.poll.txSkb[0].dst))
  }

  lemma OneMoreVerdict(w: Watch, q: Queue, g: Grounds, v: Verdict)
    requires |w.grounds| == |q.log.verdicts| < |q.log.sent|
    requires forall k :: 0 <= k < |w.grounds| ==>
      WellFounded(q.log.verdicts[k], w.grounds[k], q.log.sent[k], w.committed)
    requires WellFounded(v, g, q.log.sent[|w.grounds|], w.committed)
    ensures var gs, vs := w.grounds + [g], q.log.verdicts + [v];
      forall k :: 0 <= k < |gs| ==> WellFounded(vs[k], gs[k], q.log.sent[k], w.committed)
  {
  }

  lemma FilterAgrees(w: Watch, q: Queue, f: Filter, luck: Luck)
    requires QueueInv(q) && q.up && Agree(w, q) && f in w.committed && q.poll.stage.Got?
    ensures Agree(Seen(w, q, f, Turn(luck)), DrainFilter(q, f, luck))
  {
    var dst := q.poll.txSkb[0].dst;
    if RefusedAtOnce(luck, f, dst) {
      DecideOne(q, NoRoom);
      OneMoreVerdict(w, q, Grounds(luck, f, |q.rx|), Judge(luck, f, dst, 0));
    }
  }

  lemma PushAgrees(w: Watch, q: Queue, f: Filter, luck: Luck)
    requires QueueInv(q) && q.up && Agree(w, q) && q.poll.stage.Admitted?
    ensures Agree(Seen(w, q, f, Turn(luck)), DrainPush(q))
  {
    var g := w.look.value.(rxUsed := |q.rx|);
    DecideOne(q, NoRoom);
    OneMoreVerdict(w, q, g, Judge(g.luck, g.filter, q.poll.txSkb[0].dst, g.rxUsed));
  }

  /** A step that decides nothing. */
  lemma ActKeepsVerdicts(q: Queue, f: Filter, a: Action)
    requires !a.Reopen? && (a.Turn? ==> !q.poll.stage.Got? && !q.poll.stage.Admitted?)
    ensures var t := Act(q, f, a);
      && t.log.verdicts == q.log.verdicts && q.log.sent <= t.log.sent
      && (t.poll.stage.Admitted? ==> t.poll == q.poll)
  {
  }

  lemma SameVerdictsAgree(w: Watch, q: Queue, t: Queue)
    requires Agree(w, q) && t.log.verdicts == q.log.verdicts && q.log.sent <= t.log.sent
    requires t.poll.stage.Admitted? ==> t.poll == q.poll
    ensures Agree(w, t)
  {
  }

  lemma ActAgrees(w: Watch, q: Queue, f: Filter, a: Action)
    requires QueueInv(q) && Can(q, a) && Agree(w, q) && f in w.committed
    ensures Agree(Seen(w, q, f, a), Act(q, f, a))
  {
    if a.Turn? && q.poll.stage.Got? {
      FilterAgrees(w, q, f, a.luck);
    } else if a.Turn? && q.poll.stage.Admitted? {
      PushAgrees(w, q, f, a.luck);
    } else if !a.Reopen? {
      ActKeepsVerdicts(q, f, a);
      SameVerdictsAgree(w, q, Act(q, f, a));
    }
  }

  lemma StepAgrees(w: Watch, s: State, step: Step, i: nat)
    requires Inv(s) && Enabled(s, step) && i < |s.queues| && Agree(w, s.queues[i]) && s.filter in w.committed
    ensures var w', t := Watched(w, s, step, i), Apply(s, step);
      i < |t.queues| && Agree(w', t.queues[i]) && t.filter in w'.committed
  {
    match step
    case SetFilter(f) =>
      assert forall g | g in w.committed :: g in w.committed + [f];
    case On(k, a) =>
      if k == i {
        ActAgrees(w, s.queues[i], s.filter, a);
      }
  }

  /** The observer of queue `i` over a run. */
  ghost function WatchRun(w: Watch, s: State, trace: seq<Step>, i: nat): Watch
    requires Inv(s) && Run(s, trace).Some? && i < |s.queues|
    decreases |trace|
  {
    if trace == [] then w
    else
      StepKeepsInv(s, trace[0]);
      WatchRun(Watched(w, s, trace[0], i), Apply(s, trace[0]), trace[1..], i)
  }

  lemma {:induction false} RunAgrees(w: Watch, s: State, trace: seq<Step>, i: nat)
    requires Inv(s) && Run(s, trace).Some? && i < |s.queues| && Agree(w, s.queues[i]) && s.filter in w.committed
    ensures i < |Run(s, trace).value.queues| && Agree(WatchRun(w, s, trace, i), Run(s, trace).value.queues[i])
    decreases |trace|
  {
    if trace != [] {
      StepKeepsInv(s, trace[0]);
      StepAgrees(w, s, trace[0], i);
      RunAgrees(Watched(w, s, trace[0], i), Apply(s, trace[0]), trace[1..], i);
    }
  }

  ghost predicate IsLast(f: Filter, seen: seq<Filter>) {
    seen != [] && f == seen[|seen| - 1]
  }

  lemma StepCommits(w: Watch, s: State, step: Step, i: nat)
    requires Enabled(s, step) && i < |s.queues| && IsLast(s.filter, w.committed)
    ensures IsLast(Apply(s, step).filter, Watched(w, s, step, i).committed)
  {
  }

  /** The committed filter is the last one the observer has seen committed. */
  lemma {:induction false} FilterIsLast(w: Watch, s: State, trace: seq<Step>, i: nat)
    requires Inv(s) && Run(s, trace).Some? && i < |s.queues| && IsLast(s.filter, w.committed)
    ensures IsLast(Run(s, trace).value.filter, WatchRun(w, s, trace, i).committed)
    decreases |trace|
  {
    if trace != [] {
      StepKeepsInv(s, trace[0]);
      StepCommits(w, s, trace[0], i);
      FilterIsLast(Watched(w, s, trace[0], i), Apply(s, trace[0]), trace[1..], i);
    }
  }

  /** No iteration of either loop is in progress on any queue. */
  ghost predicate AtRest(s: State) {
    forall i :: 0 <= i < |s.queues| ==> !s.queues[i].poll.stage.Forwarded? && !s.queues[i].poll.stage.Carrying?
  }

  ghost function Waiting(qs: seq<Queue>): nat {
    if qs == [] then 0 else Waiting(qs[..|qs| - 1]) + |qs[|qs| - 1].rx|
  }

  lemma {:induction false} AtRestOwesRings(s: State)
    requires AtRest(s)
    ensures TotalOwed(s.queues) == Waiting(s.queues)
    decreases |s.queues|
  {
    if s.queues != [] {
      var n := |s.queues| - 1;
      AtRestOwesRings(s.(queues := s.queues[..n]));
      assert !s.queues[n].poll.stage.Forwarded?;
    }
  }

  /**
   What every run keeps on every queue, however producers, timer, NAPI, filter changes, watchdog and close interleave.
   The verdicts are those of the filter committed when the packet was looked at, of the allocator and of the RX ring.
   */
  lemma NoPacketLost(s: State, trace: seq<Step>, i: nat)
    requires Init(s) && Run(s, trace).Some? && i < |s.queues|
    ensures i < |Run(s, trace).value.queues|
    ensures var q, w := Run(s, trace).value.queues[i], WatchRun(Watch([s.filter], None, []), s, trace, i);
      // ownership: freed, in the hands of the drain loop, or live in the TX ring
      && q.log.sent == q.log.freed + q.poll.txSkb + q.tx
      // delivery: exactly the packets that passed, in transmit order
      && |w.grounds| == |q.log.verdicts| <= |q.log.sent|
      && Select(q.log.sent[..|q.log.verdicts|], q.log.verdicts)
         == q.log.delivered + q.poll.rxSkb + q.rx + q.log.discarded
      && (forall k :: 0 <= k < |w.grounds| ==>
          && WellFounded(q.log.verdicts[k], w.grounds[k], q.log.sent[k], w.committed)
          && (q.log.verdicts[k].NoRoom? ==> w.grounds[k].rxUsed == RING_SIZE - 1))
      // the other copies: freed, or in the hands of the drain loop
      && Spoilt(q.log.sent[..|q.log.verdicts|], q.log.verdicts)
         == q.log.spoilt + (if q.poll.stage.Rejected? then q.poll.copy else [])
      && (q.poll.copy == q.poll.txSkb || q.poll.copy == [])
      // nobody waits for ever
      && (q.up && q.tx != [] ==> q.sig.timer || q.sig.firing || q.sig.producer || WillLook(q))
      && (q.up && q.rx != [] ==> q.sig.sched)
      && (q.up && q.stopped ==> |q.tx| == RING_SIZE - 1)
      // a closed queue has given everything back
      && (!q.up ==> q.log.freed == q.log.sent && q.rx == [] && q.poll.copy == [])
  {
    RunAgrees(Watch([s.filter], None, []), s, trace, i);
    assert QueueInv(Run(s, trace).value.queues[i]);
  }

  /** The statistics law of every run: transmitted is received plus dropped plus waiting plus discarded at close. */
  lemma StatisticsLaw(s: State, trace: seq<Step>)
    requires Init(s) && Run(s, trace).Some? && AtRest(Run(s, trace).value)
    ensures var t := Run(s, trace).value;
      t.stats.txPackets == t.stats.rxPackets + t.stats.rxDropped + Waiting(t.queues) + t.stats.discarded
  {
    AtRestOwesRings(Run(s, trace).value);
  }
}
