/** Runs of publishers and a subscriber on the distributed time algorithm. Participant 0 is the
    subscriber, participant j > 0 is publisher j - 1; their handlers run inside their steps. */
module PubSubRuns {
  import opened Basics
  import opened TimeSync
  import opened TimeSafety
  import opened TimePoints
  import opened Messages
  import opened PublishSubscribe

  datatype Test = Test(period: int, publisherPeriods: seq<int>, num: nat)

  predicate ValidTest(t: Test) {
    && t.period > 0 && t.num < W
    && forall j | 0 <= j < |t.publisherPeriods| :: t.publisherPeriods[j] > 0
  }

  function SetupOf(t: Test): Setup {
    Setup([t.period] + t.publisherPeriods, seq(1 + |t.publisherPeriods|, _ => None))
  }

  /** The network, each publisher's message index, whether its handler still has to publish in the
      current step, the subscriber, and the number of assertions that have failed anywhere. */
  datatype World = World(net: State, index: seq<nat>, due: seq<bool>, sub: Subscription, failures: nat)

  ghost function InitialWorld(t: Test): World
    requires ValidTest(t)
  {
    var n := |t.publisherPeriods|;
    World(Initial(SetupOf(t)), seq(n, _ => 0), seq(n, _ => false), Subscription(seq(n, _ => 0), 0, 0), 0)
  }

  ghost predicate Sized(t: Test, w: World) {
    var n := |t.publisherPeriods|;
    |w.net.nodes| == n + 1 && |w.index| == n && |w.due| == n && |w.sub.counts| == n
  }

  /** Publishers publish what their handler decides, once, before their step completes. */
  ghost predicate CanDo(t: Test, w: World, a: Action)
    requires Sized(t, w)
  {
    && Enabled(w.net, a)
    && match a
       case Publish(i, payload) => i > 0 && w.due[i - 1] && payload == w.index[i - 1]
       case Complete(i) => i == 0 || !w.due[i - 1]
       case Resize(_, _) => false
       case _ => true
  }

  /** A message arrives at the subscriber. */
  ghost predicate Arrival(net: State, a: Action) {
    Enabled(net, a) && a.Deliver? && a.to == 0 && Arriving(net, a).Data?
  }

  ghost function Arriving(net: State, a: Action): Packet
    requires Enabled(net, a) && a.Deliver?
  {
    net.nodes[a.from].log[net.nodes[a.to].seen[a.from]]
  }

  ghost function Do(t: Test, w: World, a: Action): World
    requires ValidTest(t) && Sized(t, w) && CanDo(t, w, a)
  {
    var w' := w.(net := Apply(w.net, a));
    match a
    case Begin(i) =>
      if w'.net.aborted then w'
      else if i == 0 then SubscriberStep(t, w', w'.net.nodes[0].times.current.timePoint)
      else PublisherStep(t, w', i - 1, w'.net.nodes[i].times.current.timePoint)
    case Publish(i, _) => w'.(index := w.index[i - 1 := w.index[i - 1] + 1], due := w.due[i - 1 := false])
    case Deliver(j, _) => if Arrival(w.net, a) then Received(t, w', j - 1, Arriving(w.net, a)) else w'
    case _ => w'
  }

  function SubscriberStep(t: Test, w: World, now: int): World
    requires t.period > 0
  {
    w.(sub := w.sub.(currentTime := now), failures := if now % t.period == 0 then w.failures else w.failures + 1)
  }

  function PublisherStep(t: Test, w: World, k: nat, now: int): World
    requires ValidTest(t) && k < |w.index| == |w.due| == |t.publisherPeriods|
  {
    match Handle(w.index[k], t.num, t.publisherPeriods[k], now)
    case OffPeriod => w.(failures := w.failures + 1)
    case Publishes(_, _) => w.(due := w.due[k := true])
    case Nothing => w
  }

  function Received(t: Test, w: World, k: nat, p: Packet): World
    requires k < |w.sub.counts| == |t.publisherPeriods| && p.Data?
  {
    if p.payload >= 0 && Judge(w.sub, t.period, t.publisherPeriods[k], p.sent, p.payload).Accepted? then
      w.(sub := Counted(w.sub, k, t.num))
    else
      w.(failures := w.failures + 1)
  }

  /** Every state of a run follows from the one before. */
  ghost predicate TestRun(t: Test, ws: seq<World>, acts: seq<Action>) {
    && ValidTest(t) && |ws| == |acts| + 1 && ws[0] == InitialWorld(t)
    && forall k | 0 <= k < |acts| :: TestStep(t, ws[k], acts[k], ws[k + 1])
  }

  ghost predicate TestStep(t: Test, w: World, a: Action, w': World)
    requires ValidTest(t)
  {
    Sized(t, w) && CanDo(t, w, a) && w' == Do(t, w, a)
  }

  // ----- the network part of a test run is a run of the algorithm -----

  ghost function Nets(ws: seq<World>): seq<State> {
    seq(|ws|, k requires 0 <= k < |ws| => ws[k].net)
  }

  lemma NetRun(t: Test, ws: seq<World>, acts: seq<Action>)
    requires TestRun(t, ws, acts)
    ensures Run(SetupOf(t), Nets(ws), acts) && Constant(acts)
  {
    forall k | 0 <= k < |acts|
      ensures Step(Nets(ws)[k], acts[k], Nets(ws)[k + 1]) && !acts[k].Resize?
    {
      assert TestStep(t, ws[k], acts[k], ws[k + 1]);
      DoNet(t, ws[k], acts[k]);
    }
  }

  lemma DoNet(t: Test, w: World, a: Action)
    requires ValidTest(t) && Sized(t, w) && CanDo(t, w, a)
    ensures Do(t, w, a).net == Apply(w.net, a)
    ensures Sized(t, Do(t, w, a))
  {}

  // ----- publishers -----

  /** The first messages of a publisher with the given period: message k is sent at k periods. */
  ghost predicate Regular(m: seq<Message>, period: int) {
    forall k | 0 <= k < |m| :: m[k] == Message(Nth(k, period), k)
  }

  ghost predicate PublisherOk(nd: Node, period: int, num: nat, index: nat, due: bool) {
    && Regular(DataOf(nd.log), period) && |DataOf(nd.log)| == index <= num
    && (due ==> nd.executing && index < num && index + 1 == Steps(nd))
    && (!due ==> index == if Steps(nd) < num then Steps(nd) else num)
  }

  ghost predicate SubscriberOk(w: World, k: nat)
    requires k < |w.sub.counts| && k + 1 < |w.net.nodes|
  {
    && k + 1 < |w.net.nodes[0].seen| && w.net.nodes[0].seen[k + 1] <= |w.net.nodes[k + 1].log|
    && w.sub.counts[k] == |DataOf(w.net.nodes[k + 1].log[..w.net.nodes[0].seen[k + 1]])|
  }

  ghost predicate TestInv(t: Test, w: World) {
    && ValidTest(t) && Sized(t, w)
    && Inv(w.net) && PeriodInv(SetupOf(t), w.net.nodes)
    && (forall k | 0 <= k < |w.index| ::
          PublisherOk(w.net.nodes[k + 1], t.publisherPeriods[k], t.num, w.index[k], w.due[k]))
    && (forall k | 0 <= k < |w.sub.counts| :: SubscriberOk(w, k))
    && w.sub.currentTime == Clock(w.net.nodes[0])
    && w.failures == 0
  }

  /** What the subscriber's handler last noted as current time. */
  function Clock(nd: Node): int {
    if nd.times.current.timePoint < 0 then 0 else nd.times.current.timePoint
  }

  lemma NotDynamic(t: Test, w: World, i: nat)
    requires ValidTest(t) && PeriodInv(SetupOf(t), w.net.nodes) && i < |w.net.nodes|
    ensures !w.net.nodes[i].times.dynamic && Periodic(w.net.nodes[i], SetupOf(t).period[i])
  {}

  lemma DividesExactly(k: nat, d: nat)
    requires k > 0
    ensures (k * d) / k == d
  {
    var x := k * d;
    var q := x / k;
    assert x == k * q + x % k;
    assert q > d ==> k * q >= k * (d + 1);
    assert q < d ==> k * q <= k * (d - 1);
  }

  lemma QuotientOf(k: nat, d: nat)
    requires k > 0
    ensures Quotient(Nth(k, d), k) == d
  {
    NthIsProduct(k, d);
    DividesExactly(k, d);
  }

  /** Announcing, or receiving, leaves a publisher's messages alone. */
  lemma PublisherRequests(nd: Node, nd': Node, d: int, num: nat, index: nat)
    requires NodeOk(nd) && PublisherOk(nd, d, num, index, false)
    requires nd' == Requested(nd.(started := true, executing := false))
    ensures PublisherOk(nd', d, num, index, false)
  {
    AnnouncedAppend(nd.log, Announce(nd.times.next));
    DataAppend(nd.log, Announce(nd.times.next));
  }

  lemma PublisherPublishes(nd: Node, d: int, num: nat, index: nat)
    requires NodeOk(nd) && Periodic(nd, d) && d > 0 && !nd.times.dynamic
    requires PublisherOk(nd, d, num, index, true)
    ensures PublisherOk(Published(nd, index), d, num, index + 1, false)
  {
    var p := Data(nd.times.current.timePoint, index);
    AnnouncedAppend(nd.log, p);
    DataAppend(nd.log, p);
    StepTime(nd, d);
  }

  lemma PublisherBegins(nd: Node, d: int, num: nat, index: nat)
    requires NodeOk(nd) && Periodic(nd, d) && d > 0 && !nd.times.dynamic && MayBegin(nd)
    requires PublisherOk(nd, d, num, index, false)
    ensures var r := Handle(index, num, d, Begun(nd).times.current.timePoint);
            && !r.OffPeriod?
            && PublisherOk(Begun(nd), d, num, index, r.Publishes?)
  {
    StepTime(nd, d);
    OnPeriod(|Announced(nd.log)| - 1, d);
  }

  /** An action of someone else, or a delivery, does not touch a publisher's messages. */
  lemma PublisherUntouched(t: Test, w: World, a: Action, k: nat)
    requires ValidTest(t) && Sized(t, w) && CanDo(t, w, a) && k < |w.index|
    requires a.Deliver? || a.who != k + 1
    ensures Sized(t, Do(t, w, a))
    ensures var nd, nd' := w.net.nodes[k + 1], Do(t, w, a).net.nodes[k + 1];
            nd'.log == nd.log && nd'.started == nd.started && nd'.executing == nd.executing
    ensures Do(t, w, a).index[k] == w.index[k] && Do(t, w, a).due[k] == w.due[k]
  {
    match a
    case Begin(_) =>
    case Publish(_, _) =>
    case Deliver(_, _) =>
    case _ =>
  }

  lemma PublisherActs(t: Test, w: World, a: Action, k: nat)
    requires ValidTest(t) && Sized(t, w) && CanDo(t, w, a) && k < |w.index|
    requires !a.Deliver? && a.who == k + 1
    requires NodeOk(w.net.nodes[k + 1]) && !w.net.nodes[k + 1].times.dynamic
    requires Periodic(w.net.nodes[k + 1], t.publisherPeriods[k])
    requires PublisherOk(w.net.nodes[k + 1], t.publisherPeriods[k], t.num, w.index[k], w.due[k])
    ensures Sized(t, Do(t, w, a))
    ensures PublisherOk(Do(t, w, a).net.nodes[k + 1], t.publisherPeriods[k], t.num,
                        Do(t, w, a).index[k], Do(t, w, a).due[k])
    ensures a.Begin? ==> Do(t, w, a).failures == w.failures
  {
    var nd := w.net.nodes[k + 1];
    var d := t.publisherPeriods[k];
    match a
    case Start(_) => PublisherRequests(nd, Do(t, w, a).net.nodes[k + 1], d, t.num, w.index[k]);
    case Complete(_) => PublisherRequests(nd, Do(t, w, a).net.nodes[k + 1], d, t.num, w.index[k]);
    case Publish(_, _) => PublisherPublishes(nd, d, t.num, w.index[k]);
    case Begin(_) => PublisherBegins(nd, d, t.num, w.index[k]);
  }

  lemma PublisherKept(t: Test, w: World, a: Action, k: nat)
    requires ValidTest(t) && Sized(t, w) && CanDo(t, w, a) && k < |w.index|
    requires NodeOk(w.net.nodes[k + 1]) && !w.net.nodes[k + 1].times.dynamic
    requires Periodic(w.net.nodes[k + 1], t.publisherPeriods[k])
    requires PublisherOk(w.net.nodes[k + 1], t.publisherPeriods[k], t.num, w.index[k], w.due[k])
    ensures Sized(t, Do(t, w, a))
    ensures PublisherOk(Do(t, w, a).net.nodes[k + 1], t.publisherPeriods[k], t.num,
                        Do(t, w, a).index[k], Do(t, w, a).due[k])
    ensures a == Begin(k + 1) ==> Do(t, w, a).failures == w.failures
  {
    if a.Deliver? || a.who != k + 1 {
      PublisherUntouched(t, w, a, k);
    } else {
      PublisherActs(t, w, a, k);
    }
  }

  // ----- the subscriber -----

  /** A message that arrives lies within one of the subscriber's periods of its noted time. */
  lemma ClockWindow(t: Test, w: World, j: nat)
    requires TestInv(t, w) && Arrival(w.net, Deliver(j, 0))
    ensures w.sub.currentTime <= Arriving(w.net, Deliver(j, 0)).sent <= w.sub.currentTime + t.period
  {
    MessageWindow(w.net, j, 0);
    NotDynamic(t, w, 0);
    var nd := w.net.nodes[0];
    assert NodeSound(nd);
    var a := Announced(nd.log);
    if nd.times.current.timePoint >= 0 {
      assert nd.started;
      if !nd.executing {
        assert Follows(a[|a| - 2], a[|a| - 1].timePoint, false);
      }
    } else if nd.started {
      if nd.executing {
        NonNegative(a, false, |a| - 1);
      } else {
        FirstStep(nd);
      }
    }
  }

  /** The arriving message is the next one of its publisher and passes every check made on it. */
  ghost predicate Passes(t: Test, w: World, a: Action)
    requires Sized(t, w) && Enabled(w.net, a) && a.Deliver? && a.from > 0
  {
    var p := Arriving(w.net, a);
    var k := a.from - 1;
    && p.Data? && p.payload == w.sub.counts[k] < w.index[k] <= t.num
    && p.sent == Nth(w.sub.counts[k], t.publisherPeriods[k])
    && w.sub.currentTime <= p.sent <= w.sub.currentTime + t.period
    && Judge(w.sub, t.period, t.publisherPeriods[k], p.sent, w.sub.counts[k]) == Accepted
  }

  lemma ArrivalPasses(t: Test, w: World, j: nat)
    requires TestInv(t, w) && Arrival(w.net, Deliver(j, 0))
    ensures j > 0 && Passes(t, w, Deliver(j, 0))
  {
    var d := t.publisherPeriods[j - 1];
    var log, n := w.net.nodes[j].log, w.net.nodes[0].seen[j];
    assert SubscriberOk(w, j - 1);
    assert PublisherOk(w.net.nodes[j], d, t.num, w.index[j - 1], w.due[j - 1]);
    NextInOrder(log, n);
    var c := w.sub.counts[j - 1];
    assert DataOf(log)[c] == Message(Nth(c, d), c);
    if c > 0 {
      QuotientOf(c, d);
    }
    ClockWindow(t, w, j);
  }

  lemma CountKept(t: Test, w: World, a: Action, k: nat)
    requires ValidTest(t) && Sized(t, w) && CanDo(t, w, a) && k < |w.sub.counts|
    requires SubscriberOk(w, k) && a != Deliver(k + 1, 0)
    requires Arrival(w.net, a) ==> a.from > 0 && Passes(t, w, a)
    ensures Sized(t, Do(t, w, a)) && SubscriberOk(Do(t, w, a), k)
  {
    var w' := Do(t, w, a);
    var n := w.net.nodes[0].seen[k + 1];
    var log, log' := w.net.nodes[k + 1].log, w'.net.nodes[k + 1].log;
    assert log <= log' && log'[..n] == log[..n];
    assert w'.net.nodes[0].seen[k + 1] == n;
    assert w'.sub.counts[k] == w.sub.counts[k];
  }

  lemma SubscriberKept(t: Test, w: World, a: Action, k: nat)
    requires ValidTest(t) && Sized(t, w) && CanDo(t, w, a) && k < |w.sub.counts|
    requires SubscriberOk(w, k)
    requires Arrival(w.net, a) ==> a.from > 0 && Passes(t, w, a)
    ensures Sized(t, Do(t, w, a)) && SubscriberOk(Do(t, w, a), k)
  {
    if a == Deliver(k + 1, 0) {
      NextInOrder(w.net.nodes[k + 1].log, w.net.nodes[0].seen[k + 1]);
    } else {
      CountKept(t, w, a, k);
    }
  }

  /** Neither the subscriber's own step nor an arriving message makes an assertion fail. */
  lemma SubscriberNeverFails(t: Test, w: World, a: Action)
    requires ValidTest(t) && Sized(t, w) && CanDo(t, w, a) && !(a.Begin? && a.who > 0)
    requires NodeOk(w.net.nodes[0]) && Periodic(w.net.nodes[0], t.period) && !w.net.nodes[0].times.dynamic
    requires Arrival(w.net, a) ==> a.from > 0 && Passes(t, w, a)
    ensures Do(t, w, a).failures == w.failures
  {
    if a == Begin(0) {
      StepTime(w.net.nodes[0], t.period);
      OnPeriod(|Announced(w.net.nodes[0].log)| - 1, t.period);
    }
  }

  lemma ClockKept(t: Test, w: World, a: Action)
    requires ValidTest(t) && Sized(t, w) && CanDo(t, w, a)
    requires NodeOk(w.net.nodes[0]) && Periodic(w.net.nodes[0], t.period) && !w.net.nodes[0].times.dynamic
    requires w.sub.currentTime == Clock(w.net.nodes[0])
    ensures Sized(t, Do(t, w, a)) && Do(t, w, a).sub.currentTime == Clock(Do(t, w, a).net.nodes[0])
  {
    if a == Begin(0) {
      StepTime(w.net.nodes[0], t.period);
    }
  }

  // ----- every run -----

  lemma InitialSubscriber(t: Test, k: nat)
    requires ValidTest(t) && k < |t.publisherPeriods|
    ensures SubscriberOk(InitialWorld(t), k)
    ensures PublisherOk(InitialWorld(t).net.nodes[k + 1], t.publisherPeriods[k], t.num, 0, false)
  {
    var w := InitialWorld(t);
    assert w.net.nodes[0] == InitialNode(SetupOf(t), 0);
    assert w.net.nodes[k + 1] == InitialNode(SetupOf(t), k + 1);
  }

  lemma InitialTest(t: Test, w: World)
    requires ValidTest(t) && w == InitialWorld(t)
    requires Inv(w.net) && PeriodInv(SetupOf(t), w.net.nodes)
    ensures TestInv(t, w)
  {
    forall k | 0 <= k < |w.sub.counts|
      ensures SubscriberOk(w, k)
      ensures PublisherOk(w.net.nodes[k + 1], t.publisherPeriods[k], t.num, w.index[k], w.due[k])
    {
      InitialSubscriber(t, k);
    }
  }

  lemma {:induction false} TestRunInv(t: Test, ws: seq<World>, acts: seq<Action>, k: nat)
    requires TestRun(t, ws, acts) && k < |ws|
    ensures TestInv(t, ws[k])
    decreases k
  {
    NetRun(t, ws, acts);
    RunPeriodic(SetupOf(t), Nets(ws), acts, k);
    if k == 0 {
      InitialTest(t, ws[0]);
    } else {
      TestRunInv(t, ws, acts, k - 1);
      assert TestStep(t, ws[k - 1], acts[k - 1], ws[k]);
      TestStepInv(t, ws[k - 1], acts[k - 1]);
    }
  }

  lemma TestStepInv(t: Test, w: World, a: Action)
    requires TestInv(t, w) && CanDo(t, w, a)
    requires Inv(Do(t, w, a).net) && PeriodInv(SetupOf(t), Do(t, w, a).net.nodes)
    ensures TestInv(t, Do(t, w, a))
  {
    var w' := Do(t, w, a);
    DoNet(t, w, a);
    NotDynamic(t, w, 0);
    assert NodeSound(w.net.nodes[0]);
    if Arrival(w.net, a) {
      ArrivalPasses(t, w, a.from);
    }
    forall k | 0 <= k < |w'.index|
      ensures PublisherOk(w'.net.nodes[k + 1], t.publisherPeriods[k], t.num, w'.index[k], w'.due[k])
      ensures a == Begin(k + 1) ==> w'.failures == 0
    {
      NotDynamic(t, w, k + 1);
      assert NodeSound(w.net.nodes[k + 1]);
      PublisherKept(t, w, a, k);
    }
    forall k | 0 <= k < |w'.sub.counts| ensures SubscriberOk(w', k) {
      SubscriberKept(t, w, a, k);
    }
    ClockKept(t, w, a);
    if a.Begin? && a.who > 0 {
      assert a == Begin((a.who - 1) + 1);
    } else {
      SubscriberNeverFails(t, w, a);
    }
  }

  // ----- what the tests assert -----

  /** In every run no assertion fails, whatever the periods, the number of publishers and messages
      and the interleaving. */
  lemma NoAssertionFails(t: Test, ws: seq<World>, acts: seq<Action>, k: nat)
    requires TestRun(t, ws, acts) && k < |ws|
    ensures ws[k].failures == 0
  {
    TestRunInv(t, ws, acts, k);
  }

  /** Every message is received within [now, now + period] and in order, and message number c of a
      publisher was sent at c times its period. */
  lemma EveryMessageInWindow(t: Test, ws: seq<World>, acts: seq<Action>, k: nat)
    requires TestRun(t, ws, acts) && k < |acts| && Arrival(ws[k].net, acts[k])
    ensures Sized(t, ws[k]) && 0 < acts[k].from <= |t.publisherPeriods|
    ensures var p, j, sub := Arriving(ws[k].net, acts[k]), acts[k].from - 1, ws[k].sub;
            && sub.currentTime <= p.sent <= sub.currentTime + t.period
            && p.payload == sub.counts[j]
            && p.sent == p.payload * t.publisherPeriods[j]
  {
    TestRunInv(t, ws, acts, k);
    ArrivalPasses(t, ws[k], acts[k].from);
    NthIsProduct(ws[k].sub.counts[acts[k].from - 1], t.publisherPeriods[acts[k].from - 1]);
  }

  /** With equal periods the window has only two points: this tick or the next one. */
  lemma EqualPeriodsSameTick(t: Test, ws: seq<World>, acts: seq<Action>, k: nat, j: nat)
    requires TestRun(t, ws, acts) && k < |acts| && acts[k] == Deliver(j, 0) && Arrival(ws[k].net, acts[k])
    requires 0 < j <= |t.publisherPeriods| && t.publisherPeriods[j - 1] == t.period
    ensures var p, sub := Arriving(ws[k].net, acts[k]), ws[k].sub;
            p.sent == sub.currentTime || p.sent == sub.currentTime + t.period
  {
    TestRunInv(t, ws, acts, k);
    ArrivalPasses(t, ws[k], j);
    var c := ClockIsMultiple(t, ws[k]);
    var m := ws[k].sub.counts[j - 1];
    if m < c {
      NthAscends(m, c, t.period);
    } else if m > c + 1 {
      NthAscends(c + 1, m, t.period);
    }
  }

  lemma ClockIsMultiple(t: Test, w: World) returns (c: nat)
    requires TestInv(t, w)
    ensures w.sub.currentTime == Nth(c, t.period)
  {
    c := 0;
    var nd := w.net.nodes[0];
    NotDynamic(t, w, 0);
    assert NodeSound(nd);
    if nd.times.current.timePoint >= 0 {
      c := if nd.executing then |Announced(nd.log)| - 1 else |Announced(nd.log)| - 2;
      OwnSteps(nd, t.period, c);
    }
  }

  lemma CountsWithin(t: Test, w: World)
    requires TestInv(t, w)
    ensures Within(w.sub.counts, t.num)
    ensures forall k | 0 <= k < |w.index| :: w.sub.counts[k] <= w.index[k] <= t.num
  {
    forall k | 0 <= k < |w.sub.counts| ensures w.sub.counts[k] <= w.index[k] <= t.num {
      assert SubscriberOk(w, k);
      assert PublisherOk(w.net.nodes[k + 1], t.publisherPeriods[k], t.num, w.index[k], w.due[k]);
      DataPrefix(w.net.nodes[k + 1].log, w.net.nodes[0].seen[k + 1]);
    }
  }

  // ----- how often Stop is called -----

  /** How many of the numbers from 1 to `total` are the goal in unsigned 32-bit arithmetic. */
  function Hits(total: nat, goal: nat): nat {
    if total == 0 then 0 else Hits(total - 1, goal) + (if total % W == goal % W then 1 else 0)
  }

  function Goal(t: Test): nat { t.num * |t.publisherPeriods| }

  /** Stop has been called once for every number of received messages that hits the goal. */
  ghost predicate StopInv(t: Test, w: World) {
    && |w.sub.counts| == |t.publisherPeriods|
    && w.sub.stops == Hits(Sum(w.sub.counts), Goal(t))
  }

  lemma {:induction false} SumOfZeros(counts: seq<nat>)
    requires forall k | 0 <= k < |counts| :: counts[k] == 0
    ensures Sum(counts) == 0
    decreases |counts|
  {
    if counts == [] {
    } else {
      SumOfZeros(counts[..|counts| - 1]);
    }
  }

  lemma {:induction false} SumOneMore(counts: seq<nat>, j: nat)
    requires j < |counts|
    ensures Sum(counts[j := counts[j] + 1]) == Sum(counts) + 1
    decreases |counts|
  {
    var n := |counts| - 1;
    if j == n {
      assert counts[j := counts[j] + 1][..n] == counts[..n];
    } else {
      assert counts[j := counts[j] + 1][..n] == counts[..n][j := counts[j] + 1];
      SumOneMore(counts[..n], j);
    }
  }

  /** One more message, whose number of the publisher does not wrap. */
  lemma CountedOne(sub: Subscription, j: nat, num: nat)
    requires j < |sub.counts| && sub.counts[j] + 1 < W
    ensures var sub' := Counted(sub, j, num);
            && |sub'.counts| == |sub.counts| && Sum(sub'.counts) == Sum(sub.counts) + 1
            && sub'.stops == if StopCondition(sub'.counts, num) then sub.stops + 1 else sub.stops
  {
    assert (sub.counts[j] + 1) % W == sub.counts[j] + 1;
    SumOneMore(sub.counts, j);
  }

  lemma CountedHits(sub: Subscription, j: nat, num: nat, goal: nat)
    requires j < |sub.counts| && sub.counts[j] + 1 < W && goal == num * |sub.counts|
    requires sub.stops == Hits(Sum(sub.counts), goal)
    ensures var sub' := Counted(sub, j, num);
            |sub'.counts| == |sub.counts| && sub'.stops == Hits(Sum(sub'.counts), goal)
  {
    CountedOne(sub, j, num);
    assert Hits(Sum(sub.counts) + 1, goal)
           == Hits(Sum(sub.counts), goal) + (if (Sum(sub.counts) + 1) % W == goal % W then 1 else 0);
  }

  lemma StopStep(t: Test, w: World, a: Action)
    requires ValidTest(t) && Sized(t, w) && CanDo(t, w, a) && StopInv(t, w)
    requires Arrival(w.net, a) ==> a.from > 0 && Passes(t, w, a)
    ensures StopInv(t, Do(t, w, a))
  {
    if Arrival(w.net, a) {
      CountedHits(w.sub, a.from - 1, t.num, Goal(t));
      assert Do(t, w, a).sub == Counted(w.sub, a.from - 1, t.num);
    } else {
      assert Do(t, w, a).sub.counts == w.sub.counts && Do(t, w, a).sub.stops == w.sub.stops;
    }
  }

  lemma StopAt(t: Test, ws: seq<World>, acts: seq<Action>, k: nat)
    requires TestRun(t, ws, acts) && k < |acts| && StopInv(t, ws[k])
    ensures StopInv(t, ws[k + 1])
  {
    TestRunInv(t, ws, acts, k);
    assert TestStep(t, ws[k], acts[k], ws[k + 1]);
    if Arrival(ws[k].net, acts[k]) {
      ArrivalPasses(t, ws[k], acts[k].from);
    }
    StopStep(t, ws[k], acts[k]);
  }

  /** Whatever the numbers, Stop is called once for every number of received messages that equals the
      goal modulo 2^32. */
  lemma {:induction false} StopsByTotal(t: Test, ws: seq<World>, acts: seq<Action>, k: nat)
    requires TestRun(t, ws, acts) && k < |ws|
    ensures StopInv(t, ws[k])
    decreases k
  {
    if k == 0 {
      SumOfZeros(ws[0].sub.counts);
    } else {
      StopsByTotal(t, ws, acts, k - 1);
      StopAt(t, ws, acts, k - 1);
    }
  }

  lemma {:induction false} HitsOnce(total: nat, goal: nat)
    requires total <= goal <= W
    ensures Hits(total, goal) == if total == goal > 0 then 1 else 0
    decreases total
  {
    if total == 0 {
    } else {
      HitsOnce(total - 1, goal);
    }
  }

  /** The first number of messages at which Stop is called. */
  function FirstHit(goal: nat): nat { if goal % W == 0 then W else goal % W }

  lemma TotalIsComplete(t: Test, ws: seq<World>, acts: seq<Action>, k: nat)
    requires TestRun(t, ws, acts) && k < |ws|
    ensures Sum(ws[k].sub.counts) <= Goal(t)
    ensures Sum(ws[k].sub.counts) == Goal(t) <==> AllReceived(ws[k].sub.counts, t.num)
    ensures |ws[k].index| == |ws[k].sub.counts| && forall j | 0 <= j < |ws[k].index| ::
              ws[k].sub.counts[j] <= ws[k].index[j] <= t.num
  {
    TestRunInv(t, ws, acts, k);
    CountsWithin(t, ws[k]);
    SumIsFull(ws[k].sub.counts, t.num);
    NthIsProduct(|ws[k].sub.counts|, t.num);
  }

  /** With a goal from 1 to 2^32 Stop is called at most once, and exactly when every message of every
      publisher has been received; all of them have then been sent as well. */
  lemma StopsOnceWhenComplete(t: Test, ws: seq<World>, acts: seq<Action>, k: nat)
    requires TestRun(t, ws, acts) && k < |ws| && 0 < Goal(t) <= W
    ensures var w := ws[k];
            && w.sub.stops == (if AllReceived(w.sub.counts, t.num) then 1 else 0)
            && |w.index| == |t.publisherPeriods|
            && (AllReceived(w.sub.counts, t.num) ==> forall j | 0 <= j < |w.index| :: w.index[j] == t.num)
  {
    StopsByTotal(t, ws, acts, k);
    TotalIsComplete(t, ws, acts, k);
    HitsOnce(Sum(ws[k].sub.counts), Goal(t));
  }

  /** With a goal of zero it is never called, and with one beyond 2^32 it is called too early in every
      run that gets as far as the first hit. */
  lemma StopsWrongly(t: Test, ws: seq<World>, acts: seq<Action>, k: nat)
    requires TestRun(t, ws, acts) && k < |ws|
    ensures Goal(t) == 0 ==> ws[k].sub.stops == 0
    ensures Goal(t) > W && Sum(ws[k].sub.counts) == FirstHit(Goal(t)) ==>
              ws[k].sub.stops > 0 && !AllReceived(ws[k].sub.counts, t.num)
  {
    StopsByTotal(t, ws, acts, k);
    TotalIsComplete(t, ws, acts, k);
    var total := Sum(ws[k].sub.counts);
    if Goal(t) > W && total == FirstHit(Goal(t)) {
      assert total % W == Goal(t) % W;
    }
  }
}
