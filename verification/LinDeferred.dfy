/** A LIN master that sends a frame header and waits for the response, and a slave that responds a fixed
    number of ticks later; both step in every tick on the distributed time algorithm. In the test a tick
    is a millisecond and the number is two. */
module LinDeferred {
  import opened Basics
  import opened TimeSync
  import opened TimeSafety
  import opened TimePoints
  import opened Messages

  datatype Rates = Rates(period: int, ticks: nat)

  /** How often both sides step, and after how many steps the slave responds. */
  type Timing = r: Rates | r.period > 0 && r.ticks > 0 witness Rates(1_000_000, 2)

  function Delay(g: Timing): (d: int)
    ensures d >= g.period && d == g.ticks * g.period
  {
    NthAscends(0, g.ticks, g.period);
    NthIsProduct(g.ticks, g.period);
    Nth(g.ticks, g.period)
  }

  ghost predicate Multiple(t: int, d: int) { exists k: nat :: IsNth(k, d, t) }

  const HEADER := 0
  const RESPONSE := 1

  function BothEvery(g: Timing): Setup {
    Setup([g.period, g.period], [None, None])
  }

  datatype LinWorld = LinWorld(
    net: State,
    waiting: bool,            // the master's state: waiting for a response, or sending
    sentTimes: seq<int>,      // when the master sent its headers
    headerReceived: int,      // the slave's note of the last header, reset to zero by its response
    responseTimes: seq<int>,  // when the slave responded
    due: seq<bool>)           // whose handler has still to put its frame on the link

  ghost function InitialLin(g: Timing): LinWorld {
    LinWorld(Initial(BothEvery(g)), false, [], 0, [], [false, false])
  }

  ghost predicate CanDo(w: LinWorld, a: Action) {
    && Enabled(w.net, a) && |w.net.nodes| == 2 && |w.due| == 2
    && match a
       case Publish(i, x) => w.due[i] && x == i
       case Complete(i) => !w.due[i]
       case Resize(_, _) => false
       case _ => true
  }

  ghost function Do(g: Timing, w: LinWorld, a: Action): LinWorld
    requires CanDo(w, a)
  {
    var w' := w.(net := Apply(w.net, a));
    match a
    case Begin(i) =>
      if w'.net.aborted then w'
      else if i == 0 then MasterStep(w', w'.net.nodes[0].times.current.timePoint)
      else SlaveStep(g, w', w'.net.nodes[1].times.current.timePoint)
    case Publish(i, _) => w'.(due := w.due[i := false])
    case Deliver(j, i) =>
      if !Arrives(w.net, a, j, i) then w'
      else if i == 1 then OnFrameHeader(w', w.net.nodes[0].log[w.net.nodes[1].seen[0]].sent)
      else OnFrameStatus(w')
    case _ => w'
  }

  function MasterStep(w: LinWorld, now: int): LinWorld
    requires |w.due| == 2
  {
    if !w.waiting then w.(sentTimes := w.sentTimes + [now], waiting := true, due := w.due[0 := true]) else w
  }

  function SlaveStep(g: Timing, w: LinWorld, now: int): LinWorld
    requires |w.due| == 2
  {
    if now == w.headerReceived + Delay(g) then
      w.(responseTimes := w.responseTimes + [now], headerReceived := 0, due := w.due[1 := true])
    else w
  }

  function OnFrameHeader(w: LinWorld, timestamp: int): LinWorld { w.(headerReceived := timestamp) }

  function OnFrameStatus(w: LinWorld): LinWorld { w.(waiting := false) }

  ghost predicate LinRun(g: Timing, ws: seq<LinWorld>, acts: seq<Action>) {
    && |ws| == |acts| + 1 && ws[0] == InitialLin(g)
    && forall k | 0 <= k < |acts| :: LinStep(g, ws[k], acts[k], ws[k + 1])
  }

  ghost predicate LinStep(g: Timing, w: LinWorld, a: Action, w': LinWorld) {
    CanDo(w, a) && w' == Do(g, w, a)
  }

  // ----- the network part -----

  ghost function Nets(ws: seq<LinWorld>): seq<State> {
    seq(|ws|, k requires 0 <= k < |ws| => ws[k].net)
  }

  lemma DoNet(g: Timing, w: LinWorld, a: Action)
    requires CanDo(w, a)
    ensures Do(g, w, a).net == Apply(w.net, a) && |Do(g, w, a).due| == 2
  {}

  lemma NetRun(g: Timing, ws: seq<LinWorld>, acts: seq<Action>)
    requires LinRun(g, ws, acts)
    ensures Run(BothEvery(g), Nets(ws), acts) && Constant(acts)
  {
    forall k | 0 <= k < |acts|
      ensures Step(Nets(ws)[k], acts[k], Nets(ws)[k + 1]) && !acts[k].Resize?
    {
      assert LinStep(g, ws[k], acts[k], ws[k + 1]);
      DoNet(g, ws[k], acts[k]);
    }
  }

  /** Where a participant is on the grid of ticks. */
  ghost predicate Ticks(g: Timing, nd: Node) {
    && Multiple(nd.times.next.timePoint, g.period) && nd.times.next.timePoint >= 0
    && (if nd.times.current.timePoint >= 0
        then nd.times.next.timePoint == nd.times.current.timePoint + g.period
        else nd.times.current.timePoint == -1 && nd.times.next.timePoint == 0)
  }

  ghost predicate Paired(net: State) {
    |net.nodes| == 2 && Linked(net, 0, 1) && Linked(net, 1, 0)
  }

  ghost predicate NetOk(g: Timing, net: State) {
    Paired(net) && Inv(net) && Ticks(g, net.nodes[0]) && Ticks(g, net.nodes[1])
  }

  lemma NodeTicks(g: Timing, nd: Node)
    requires NodeOk(nd) && Periodic(nd, g.period) && !nd.times.dynamic
    ensures Ticks(g, nd)
  {
    if nd.started {
      StepTime(nd, g.period);
      var a := Announced(nd.log);
      if nd.executing {
        NthNonNegative(|a| - 1, g.period);
        assert IsNth(Steps(nd), g.period, nd.times.next.timePoint);
      } else {
        assert IsNth(Steps(nd), g.period, nd.times.next.timePoint);
        if |a| > 1 {
          NonNegative(a, false, |a| - 2);
          assert Follows(a[|a| - 2], a[|a| - 1].timePoint, false);
        } else {
          FirstStep(nd);
        }
      }
    } else {
      assert IsNth(0, g.period, 0);
    }
  }

  lemma NetInv(g: Timing, ws: seq<LinWorld>, acts: seq<Action>, k: nat)
    requires LinRun(g, ws, acts) && k < |ws|
    ensures NetOk(g, ws[k].net)
  {
    NetRun(g, ws, acts);
    var c := BothEvery(g);
    RunPeriodic(c, Nets(ws), acts, k);
    var nodes := ws[k].net.nodes;
    assert forall i | 0 <= i < 2 :: !DynamicEnabled(c.mode, i);
    assert NodeSound(nodes[0]) && NodeSound(nodes[1]);
    NodeTicks(g, nodes[0]);
    NodeTicks(g, nodes[1]);
    assert LinkOk(nodes, 0, 1) && LinkOk(nodes, 1, 0);
  }

  // ----- the protocol between master and slave -----

  /** What the protocol depends on: when each side steps, the time stamps of the frames on either
      link with how many of them have arrived, and the variables of the two handlers. */
  datatype Exchange = Exchange(
    masterNow: int, masterNext: int, masterInside: bool,
    slaveNow: int, slaveNext: int, slaveInside: bool,
    headers: seq<int>, gotHeaders: nat,
    answers: seq<int>, gotAnswers: nat,
    waiting: bool, sentTimes: seq<int>, headerDue: bool,
    headerReceived: int, responseTimes: seq<int>, answerDue: bool)

  function Stamps(m: seq<Message>): (r: seq<int>)
    ensures |r| == |m| && forall k | 0 <= k < |m| :: r[k] == m[k].sent
  {
    seq(|m|, k requires 0 <= k < |m| => m[k].sent)
  }

  ghost function ExchangeOf(w: LinWorld): Exchange
    requires Paired(w.net) && |w.due| == 2
  {
    var master, slave := w.net.nodes[0], w.net.nodes[1];
    Exchange(master.times.current.timePoint, master.times.next.timePoint, master.executing,
             slave.times.current.timePoint, slave.times.next.timePoint, slave.executing,
             Stamps(Sent(w.net, 0)), Got(w.net, 0, 1), Stamps(Sent(w.net, 1)), Got(w.net, 1, 0),
             w.waiting, w.sentTimes, w.due[0], w.headerReceived, w.responseTimes, w.due[1])
  }

  function MasterBegins(g: Timing, e: Exchange): Exchange {
    var e' := e.(masterNow := e.masterNext, masterNext := e.masterNext + g.period, masterInside := true);
    if e.waiting then e'
    else e'.(sentTimes := e.sentTimes + [e.masterNext], waiting := true, headerDue := true)
  }

  function SlaveBegins(g: Timing, e: Exchange): Exchange {
    var e' := e.(slaveNow := e.slaveNext, slaveNext := e.slaveNext + g.period, slaveInside := true);
    if e.slaveNext != e.headerReceived + Delay(g) then e'
    else e'.(responseTimes := e.responseTimes + [e.slaveNext], headerReceived := 0, answerDue := true)
  }

  /** The steps of the exchange. */
  datatype Move =
    | Idle(masterInside: bool, slaveInside: bool)
    | MasterTurn | SlaveTurn | HeaderOut | AnswerOut | HeaderIn | AnswerIn

  /** The step the master announced last. */
  function MasterAnnounced(e: Exchange): int { if e.masterInside then e.masterNow else e.masterNext }

  /** What the distributed time algorithm guarantees about them. */
  ghost predicate May(e: Exchange, m: Move) {
    match m
    case Idle(master, slave) =>
      && (e.headerDue ==> master == e.masterInside)
      && (e.answerDue ==> slave == e.slaveInside)
    case MasterTurn => !e.masterInside && e.slaveNow <= e.masterNext
    case SlaveTurn =>
      && !e.slaveInside && e.slaveNext <= MasterAnnounced(e)
      && forall b | 0 <= b < |e.headers| && e.headers[b] < e.slaveNext :: b < e.gotHeaders
    case HeaderOut => e.headerDue
    case AnswerOut => e.answerDue
    case HeaderIn => e.gotHeaders < |e.headers| && e.slaveNow <= e.headers[e.gotHeaders] <= e.slaveNext
    case AnswerIn => e.gotAnswers < |e.answers| && e.masterNow <= e.answers[e.gotAnswers] <= e.masterNext
  }

  ghost function After(g: Timing, e: Exchange, m: Move): Exchange
    requires May(e, m)
  {
    match m
    case Idle(master, slave) => e.(masterInside := master, slaveInside := slave)
    case MasterTurn => MasterBegins(g, e)
    case SlaveTurn => SlaveBegins(g, e)
    case HeaderOut => e.(headers := e.headers + [e.masterNow], headerDue := false)
    case AnswerOut => e.(answers := e.answers + [e.slaveNow], answerDue := false)
    case HeaderIn => e.(gotHeaders := e.gotHeaders + 1, headerReceived := e.headers[e.gotHeaders])
    case AnswerIn => e.(gotAnswers := e.gotAnswers + 1, waiting := false)
  }

  lemma Received(g: Timing, w: LinWorld, a: Action)
    requires Paired(w.net) && CanDo(w, a)
    ensures Paired(Apply(w.net, a)) && |Do(g, w, a).due| == 2 && Do(g, w, a).net == Apply(w.net, a)
    ensures Sent(Apply(w.net, a), 0) == (if a.Publish? && a.who == 0 then
              Sent(w.net, 0) + [Message(w.net.nodes[0].times.current.timePoint, a.payload)] else Sent(w.net, 0))
    ensures Sent(Apply(w.net, a), 1) == (if a.Publish? && a.who == 1 then
              Sent(w.net, 1) + [Message(w.net.nodes[1].times.current.timePoint, a.payload)] else Sent(w.net, 1))
    ensures Got(Apply(w.net, a), 0, 1) == Got(w.net, 0, 1) + (if Arrives(w.net, a, 0, 1) then 1 else 0)
    ensures Got(Apply(w.net, a), 1, 0) == Got(w.net, 1, 0) + (if Arrives(w.net, a, 1, 0) then 1 else 0)
  {
    SentAfter(w.net, a, 0);
    SentAfter(w.net, a, 1);
    GotAfter(w.net, a, 0, 1);
    GotAfter(w.net, a, 1, 0);
  }

  lemma MasterBeginMoves(g: Timing, w: LinWorld)
    requires Paired(w.net) && CanDo(w, Begin(0)) && !Apply(w.net, Begin(0)).aborted
    requires Paired(Apply(w.net, Begin(0))) && Ticks(g, Apply(w.net, Begin(0)).nodes[0])
    requires w.net.nodes[0].times.next.timePoint >= 0
    ensures |Do(g, w, Begin(0)).due| == 2
    ensures ExchangeOf(Do(g, w, Begin(0))) == MasterBegins(g, ExchangeOf(w))
  {
    Received(g, w, Begin(0));
  }

  lemma SlaveBeginMoves(g: Timing, w: LinWorld)
    requires Paired(w.net) && CanDo(w, Begin(1)) && !Apply(w.net, Begin(1)).aborted
    requires Paired(Apply(w.net, Begin(1))) && Ticks(g, Apply(w.net, Begin(1)).nodes[1])
    requires w.net.nodes[1].times.next.timePoint >= 0
    ensures |Do(g, w, Begin(1)).due| == 2
    ensures ExchangeOf(Do(g, w, Begin(1))) == SlaveBegins(g, ExchangeOf(w))
  {
    Received(g, w, Begin(1));
  }

  /** A header sent before the slave's next step has arrived when that step may begin. */
  lemma HeaderIsHere(g: Timing, w: LinWorld, k: nat)
    requires NetOk(g, w.net) && Enabled(w.net, Begin(1)) && k < |Sent(w.net, 0)|
    requires Sent(w.net, 0)[k].sent < w.net.nodes[1].times.next.timePoint
    ensures k < Got(w.net, 0, 1)
  {
    var log, n := w.net.nodes[0].log, w.net.nodes[1].seen[0];
    var b := DataIndex(log, k);
    PastIsDelivered(w.net, 1, 0, b);
    assert log[..n][..b + 1] == log[..b] + [log[b]];
    DataAppend(log[..b], log[b]);
    DataPrefix(log[..n], b + 1);
  }

  lemma HeadersAreHere(g: Timing, w: LinWorld)
    requires NetOk(g, w.net) && Enabled(w.net, Begin(1))
    ensures var master := w.net.nodes[0];
            w.net.nodes[1].times.next.timePoint
            <= if master.executing then master.times.current.timePoint else master.times.next.timePoint
    ensures forall b | 0 <= b < |Stamps(Sent(w.net, 0))|
              && Stamps(Sent(w.net, 0))[b] < w.net.nodes[1].times.next.timePoint :: b < Got(w.net, 0, 1)
  {
    assert LinkOk(w.net.nodes, 1, 0);
    KnownAnnounced(w.net.nodes, 1, 0);
    forall b | 0 <= b < |Stamps(Sent(w.net, 0))| && Stamps(Sent(w.net, 0))[b] < w.net.nodes[1].times.next.timePoint
      ensures b < Got(w.net, 0, 1)
    {
      HeaderIsHere(g, w, b);
    }
  }

  lemma IdleMoves(g: Timing, w: LinWorld, a: Action)
    requires Paired(w.net) && CanDo(w, a)
    requires (a.Begin? && Apply(w.net, a).aborted) || a.Start? || a.Complete?
    ensures |Do(g, w, a).due| == 2 && Paired(Do(g, w, a).net)
    ensures var m := Idle(ExchangeOf(Do(g, w, a)).masterInside, ExchangeOf(Do(g, w, a)).slaveInside);
            May(ExchangeOf(w), m) && ExchangeOf(Do(g, w, a)) == After(g, ExchangeOf(w), m)
  {
    Received(g, w, a);
  }

  lemma AnnouncementMoves(g: Timing, w: LinWorld, j: nat, i: nat)
    requires Paired(w.net) && CanDo(w, Deliver(j, i)) && !Arrives(w.net, Deliver(j, i), j, i)
    ensures Paired(Do(g, w, Deliver(j, i)).net) && ExchangeOf(w) == ExchangeOf(Do(g, w, Deliver(j, i)))
  {
    Received(g, w, Deliver(j, i));
  }

  lemma ArrivalMoves(g: Timing, w: LinWorld, j: nat, i: nat)
    requires NetOk(g, w.net) && CanDo(w, Deliver(j, i)) && Arrives(w.net, Deliver(j, i), j, i)
    ensures Paired(Do(g, w, Deliver(j, i)).net)
    ensures var m := if i == 1 then HeaderIn else AnswerIn;
            May(ExchangeOf(w), m) && ExchangeOf(Do(g, w, Deliver(j, i))) == After(g, ExchangeOf(w), m)
  {
    Received(g, w, Deliver(j, i));
    GotAfter(w.net, Deliver(j, i), j, i);
    MessageWindow(w.net, j, i);
  }

  lemma HeaderMoves(g: Timing, w: LinWorld, x: int)
    requires Paired(w.net) && CanDo(w, Publish(0, x))
    ensures |Do(g, w, Publish(0, x)).due| == 2 && Paired(Do(g, w, Publish(0, x)).net)
    ensures May(ExchangeOf(w), HeaderOut)
    ensures ExchangeOf(Do(g, w, Publish(0, x))) == After(g, ExchangeOf(w), HeaderOut)
  {
    Received(g, w, Publish(0, x));
    assert Stamps(Sent(Apply(w.net, Publish(0, x)), 0))
           == Stamps(Sent(w.net, 0)) + [w.net.nodes[0].times.current.timePoint];
  }

  lemma AnswerMoves(g: Timing, w: LinWorld, x: int)
    requires Paired(w.net) && CanDo(w, Publish(1, x))
    ensures |Do(g, w, Publish(1, x)).due| == 2 && Paired(Do(g, w, Publish(1, x)).net)
    ensures May(ExchangeOf(w), AnswerOut)
    ensures ExchangeOf(Do(g, w, Publish(1, x))) == After(g, ExchangeOf(w), AnswerOut)
  {
    Received(g, w, Publish(1, x));
    assert Stamps(Sent(Apply(w.net, Publish(1, x)), 1))
           == Stamps(Sent(w.net, 1)) + [w.net.nodes[1].times.current.timePoint];
  }

  lemma PublishMoves(g: Timing, w: LinWorld, i: nat, x: int) returns (m: Move)
    requires Paired(w.net) && CanDo(w, Publish(i, x))
    ensures |Do(g, w, Publish(i, x)).due| == 2 && Paired(Do(g, w, Publish(i, x)).net)
    ensures May(ExchangeOf(w), m) && ExchangeOf(Do(g, w, Publish(i, x))) == After(g, ExchangeOf(w), m)
  {
    if i == 0 {
      m := HeaderOut;
      HeaderMoves(g, w, x);
    } else {
      m := AnswerOut;
      AnswerMoves(g, w, x);
    }
  }

  lemma BeginMoves(g: Timing, w: LinWorld, i: nat) returns (m: Move)
    requires NetOk(g, w.net) && CanDo(w, Begin(i))
    requires NetOk(g, Apply(w.net, Begin(i))) && !Apply(w.net, Begin(i)).aborted
    ensures |Do(g, w, Begin(i)).due| == 2 && Paired(Do(g, w, Begin(i)).net)
    ensures May(ExchangeOf(w), m) && ExchangeOf(Do(g, w, Begin(i))) == After(g, ExchangeOf(w), m)
  {
    if i == 0 {
      m := MasterTurn;
      MasterBeginMoves(g, w);
      assert LinkOk(w.net.nodes, 1, 0);
      KnownAnnounced(w.net.nodes, 1, 0);
    } else {
      m := SlaveTurn;
      SlaveBeginMoves(g, w);
      HeadersAreHere(g, w);
    }
  }

  lemma DeliverMoves(g: Timing, w: LinWorld, j: nat, i: nat) returns (m: Move)
    requires NetOk(g, w.net) && CanDo(w, Deliver(j, i))
    ensures |Do(g, w, Deliver(j, i)).due| == 2 && Paired(Do(g, w, Deliver(j, i)).net)
    ensures May(ExchangeOf(w), m) && ExchangeOf(Do(g, w, Deliver(j, i))) == After(g, ExchangeOf(w), m)
  {
    if Arrives(w.net, Deliver(j, i), j, i) {
      m := if i == 1 then HeaderIn else AnswerIn;
      ArrivalMoves(g, w, j, i);
    } else {
      m := Idle(ExchangeOf(w).masterInside, ExchangeOf(w).slaveInside);
      AnnouncementMoves(g, w, j, i);
    }
  }

  /** Every action of the network is a move of the exchange. */
  lemma EveryActionMoves(g: Timing, w: LinWorld, a: Action) returns (m: Move)
    requires NetOk(g, w.net) && CanDo(w, a) && NetOk(g, Apply(w.net, a))
    ensures |Do(g, w, a).due| == 2 && Paired(Do(g, w, a).net)
    ensures May(ExchangeOf(w), m) && ExchangeOf(Do(g, w, a)) == After(g, ExchangeOf(w), m)
  {
    if a.Begin? && !Apply(w.net, a).aborted {
      m := BeginMoves(g, w, a.who);
    } else if a.Deliver? {
      m := DeliverMoves(g, w, a.from, a.to);
    } else if a.Publish? {
      m := PublishMoves(g, w, a.who, a.payload);
    } else {
      m := Idle(ExchangeOf(Do(g, w, a)).masterInside, ExchangeOf(Do(g, w, a)).slaveInside);
      IdleMoves(g, w, a);
    }
  }

  // ----- its invariant -----

  ghost predicate SameTimes(stamps: seq<int>, times: seq<int>, due: bool) {
    && |stamps| == (if due then |times| - 1 else |times|)
    && forall k | 0 <= k < |stamps| :: stamps[k] == times[k]
  }

  /** Headers and responses alternate: sent, received, answered, answer received, next one sent. */
  ghost predicate Alternates(e: Exchange) {
    && e.gotAnswers <= |e.answers| && e.gotHeaders <= |e.headers|
    && |e.sentTimes| == (if e.waiting then e.gotAnswers + 1 else e.gotAnswers)
    && |e.responseTimes| <= e.gotHeaders <= |e.responseTimes| + 1
  }

  ghost predicate Clocks(g: Timing, e: Exchange) {
    && (if e.masterNow >= 0 then e.masterNext == e.masterNow + g.period else e.masterNow == -1 && e.masterNext == 0)
    && (if e.slaveNow >= 0 then e.slaveNext == e.slaveNow + g.period else e.slaveNow == -1 && e.slaveNext == 0)
  }

  /** Everything happens at multiples of a tick. */
  ghost predicate OnGrid(g: Timing, e: Exchange) {
    && Multiple(e.masterNext, g.period) && Multiple(e.slaveNext, g.period)
    && forall k | 0 <= k < |e.sentTimes| :: Multiple(e.sentTimes[k], g.period)
  }

  /** Every response follows its header by the delay, and the slave has not missed the
      moment for the header it has noted. */
  ghost predicate OnTime(g: Timing, e: Exchange) {
    var r := |e.responseTimes|;
    && r <= |e.sentTimes|
    && (forall k | 0 <= k < r :: e.responseTimes[k] == e.sentTimes[k] + Delay(g) && e.responseTimes[k] <= e.slaveNow)
    && (e.gotHeaders == r ==> e.headerReceived == 0)
    && (e.gotHeaders == r + 1 ==>
          r < |e.sentTimes| && e.headerReceived == e.sentTimes[r] && e.slaveNext <= e.sentTimes[r] + Delay(g))
  }

  /** The master sends in its very first step, and then in the tick of each response or in the one
      after it. */
  ghost predicate Sends(g: Timing, e: Exchange) {
    var h := |e.sentTimes|;
    && (if e.masterNow >= 0 then h > 0 && e.sentTimes[0] == 0 else h == 0 && !e.waiting)
    && (forall k | 0 <= k < h :: 0 <= e.sentTimes[k] <= e.masterNow)
    && (forall k | 0 < k < h :: k - 1 < |e.responseTimes| && SameOrNextTick(g, e.sentTimes[k], e.responseTimes[k - 1]))
    && (!e.waiting && h > 0 ==> h <= |e.responseTimes| && SameOrNextTick(g, e.masterNext, e.responseTimes[h - 1]))
  }

  predicate SameOrNextTick(g: Timing, t: int, response: int) { t == response || t == response + g.period }

  ghost predicate Owes(e: Exchange) {
    && (e.headerDue ==> e.masterInside && e.sentTimes != [] && e.sentTimes[|e.sentTimes| - 1] == e.masterNow)
    && (e.answerDue ==>
          e.slaveInside && e.responseTimes != [] && e.responseTimes[|e.responseTimes| - 1] == e.slaveNow)
  }

  ghost predicate LinInv(g: Timing, e: Exchange) {
    && SameTimes(e.headers, e.sentTimes, e.headerDue)
    && SameTimes(e.answers, e.responseTimes, e.answerDue)
    && Alternates(e) && Clocks(g, e) && OnTime(g, e) && Sends(g, e) && Owes(e)
  }

  /** When the slave's time has come by its note, the note is a header it has not answered: the zero
      it is reset to never makes it answer again. */
  lemma NoSpuriousResponse(g: Timing, e: Exchange)
    requires LinInv(g, e) && !e.slaveInside && e.slaveNext <= MasterAnnounced(e)
    requires forall b | 0 <= b < |e.headers| && e.headers[b] < e.slaveNext :: b < e.gotHeaders
    requires e.slaveNext == e.headerReceived + Delay(g)
    ensures e.gotHeaders == |e.responseTimes| + 1
  {
    if e.gotHeaders == |e.responseTimes| {
      assert false;
    }
  }

  lemma MasterKeeps(g: Timing, e: Exchange)
    requires LinInv(g, e) && !e.masterInside
    ensures LinInv(g, MasterBegins(g, e))
  {
    MasterSends(g, e);
    MasterOnTime(g, e);
  }

  lemma MasterOnTime(g: Timing, e: Exchange)
    requires OnTime(g, e)
    ensures OnTime(g, MasterBegins(g, e))
  {
    assert e.sentTimes <= MasterBegins(g, e).sentTimes;
  }

  lemma MasterSends(g: Timing, e: Exchange)
    requires Sends(g, e) && Clocks(g, e)
    ensures Sends(g, MasterBegins(g, e))
  {
    var e' := MasterBegins(g, e);
    forall k | 0 < k < |e'.sentTimes|
      ensures k - 1 < |e'.responseTimes| && SameOrNextTick(g, e'.sentTimes[k], e'.responseTimes[k - 1])
    {
      if k < |e.sentTimes| {
        assert SameOrNextTick(g, e.sentTimes[k], e.responseTimes[k - 1]);
      }
    }
  }

  lemma NextTick(g: Timing, a: int, b: int)
    requires Multiple(a, g.period) && Multiple(b, g.period) && a < b
    ensures a + g.period <= b
  {
    var j: nat, k: nat :| IsNth(j, g.period, a) && IsNth(k, g.period, b);
    if k < j {
      NthAscends(k, j, g.period);
    } else if j < k {
      NthAscends(j, k, g.period);
    }
  }

  lemma AfterDelay(g: Timing, t: int)
    requires Multiple(t, g.period)
    ensures Multiple(t + Delay(g), g.period)
  {
    var k: nat :| IsNth(k, g.period, t);
    NthAdds(k, g.ticks, g.period);
    assert IsNth(k + g.ticks, g.period, t + Delay(g));
  }

  /** If the slave's next step is before the moment at which it is to answer, it is so by a tick. */
  ghost predicate WholeTicks(g: Timing, e: Exchange) {
    var r := |e.responseTimes|;
    r < |e.sentTimes| && e.slaveNext < e.sentTimes[r] + Delay(g)
    ==> e.slaveNext <= e.sentTimes[r] + Delay(g) - g.period
  }

  lemma SlaveOnTime(g: Timing, e: Exchange)
    requires Alternates(e) && Clocks(g, e) && OnTime(g, e)
    requires e.slaveNext == e.headerReceived + Delay(g) ==> e.gotHeaders == |e.responseTimes| + 1
    requires WholeTicks(g, e)
    ensures OnTime(g, SlaveBegins(g, e))
  {}

  lemma SlaveSends(g: Timing, e: Exchange)
    requires Sends(g, e) && |e.sentTimes| <= |e.responseTimes| + 1
    ensures Sends(g, SlaveBegins(g, e))
  {
    var e' := SlaveBegins(g, e);
    forall k | 0 < k < |e.sentTimes|
      ensures k - 1 < |e'.responseTimes| && SameOrNextTick(g, e'.sentTimes[k], e'.responseTimes[k - 1])
    {
      assert SameOrNextTick(g, e.sentTimes[k], e.responseTimes[k - 1]);
    }
  }

  lemma SlaveKeeps(g: Timing, e: Exchange)
    requires LinInv(g, e) && !e.slaveInside && e.slaveNext <= MasterAnnounced(e)
    requires forall b | 0 <= b < |e.headers| && e.headers[b] < e.slaveNext :: b < e.gotHeaders
    requires WholeTicks(g, e)
    ensures LinInv(g, SlaveBegins(g, e))
  {
    if e.slaveNext == e.headerReceived + Delay(g) {
      NoSpuriousResponse(g, e);
    }
    SlaveOnTime(g, e);
    SlaveSends(g, e);
  }

  lemma IdleKeeps(g: Timing, e: Exchange, m: Move)
    requires LinInv(g, e) && m.Idle? && May(e, m)
    ensures LinInv(g, After(g, e, m))
  {
    IdleSends(g, e, m);
    IdleOnTime(g, e, m);
    IdleOwes(g, e, m);
  }

  lemma IdleOwes(g: Timing, e: Exchange, m: Move)
    requires Owes(e) && Alternates(e) && Clocks(g, e) && m.Idle? && May(e, m)
    ensures Owes(After(g, e, m)) && Alternates(After(g, e, m)) && Clocks(g, After(g, e, m))
  {}

  lemma IdleSends(g: Timing, e: Exchange, m: Move)
    requires Sends(g, e) && m.Idle? && May(e, m)
    ensures Sends(g, After(g, e, m))
  {
    var e' := After(g, e, m);
    assert e'.sentTimes == e.sentTimes && e'.responseTimes == e.responseTimes;
  }

  lemma IdleOnTime(g: Timing, e: Exchange, m: Move)
    requires OnTime(g, e) && m.Idle? && May(e, m)
    ensures OnTime(g, After(g, e, m))
  {
    var e' := After(g, e, m);
    assert e'.sentTimes == e.sentTimes && e'.responseTimes == e.responseTimes;
  }

  lemma HeaderOutKeeps(g: Timing, e: Exchange)
    requires LinInv(g, e) && May(e, HeaderOut)
    ensures LinInv(g, After(g, e, HeaderOut))
  {
    var e' := After(g, e, HeaderOut);
    assert e'.sentTimes == e.sentTimes && e'.responseTimes == e.responseTimes && e'.answers == e.answers;
    assert OnTime(g, e') && Sends(g, e');
  }

  lemma AnswerOutKeeps(g: Timing, e: Exchange)
    requires LinInv(g, e) && May(e, AnswerOut)
    ensures LinInv(g, After(g, e, AnswerOut))
  {
    var e' := After(g, e, AnswerOut);
    assert e'.sentTimes == e.sentTimes && e'.responseTimes == e.responseTimes && e'.headers == e.headers;
    assert OnTime(g, e') && Sends(g, e');
  }

  /** The header that arrives is the only one not answered yet. */
  lemma HeaderKeeps(g: Timing, e: Exchange)
    requires LinInv(g, e) && May(e, HeaderIn)
    ensures LinInv(g, After(g, e, HeaderIn))
  {}

  /** The response that arrives is the one the master waits for. */
  lemma AnswerKeeps(g: Timing, e: Exchange)
    requires LinInv(g, e) && May(e, AnswerIn)
    requires SameOrNextTick(g, e.masterNext, e.answers[e.gotAnswers])
    ensures LinInv(g, After(g, e, AnswerIn))
  {
    AnswerSends(g, e);
    assert OnTime(g, After(g, e, AnswerIn));
  }

  lemma AnswerSends(g: Timing, e: Exchange)
    requires SameTimes(e.answers, e.responseTimes, e.answerDue) && Alternates(e) && OnTime(g, e) && Sends(g, e)
    requires May(e, AnswerIn) && SameOrNextTick(g, e.masterNext, e.answers[e.gotAnswers])
    ensures e.waiting && Sends(g, After(g, e, AnswerIn)) && Alternates(After(g, e, AnswerIn))
  {}

  lemma SlaveOnGrid(g: Timing, e: Exchange)
    requires OnGrid(g, e)
    ensures WholeTicks(g, e)
  {
    var r := |e.responseTimes|;
    if r < |e.sentTimes| && e.slaveNext < e.sentTimes[r] + Delay(g) {
      AfterDelay(g, e.sentTimes[r]);
      NextTick(g, e.slaveNext, e.sentTimes[r] + Delay(g));
    }
  }

  lemma AnswerOnGrid(g: Timing, e: Exchange)
    requires SameTimes(e.answers, e.responseTimes, e.answerDue) && OnTime(g, e) && Sends(g, e)
    requires Clocks(g, e) && OnGrid(g, e)
    requires May(e, AnswerIn)
    ensures SameOrNextTick(g, e.masterNext, e.answers[e.gotAnswers])
  {
    var k := e.gotAnswers;
    assert e.answers[k] == e.responseTimes[k] == e.sentTimes[k] + Delay(g);
    TickInWindow(g, e.sentTimes[k], e.masterNext, e.masterNow);
  }

  lemma TickInWindow(g: Timing, sent: int, next: int, now: int)
    requires Multiple(sent, g.period) && Multiple(next, g.period) && 0 <= sent && now <= sent + Delay(g) <= next
    requires if now >= 0 then next == now + g.period else now == -1 && next == 0
    ensures SameOrNextTick(g, next, sent + Delay(g))
  {
    if sent + Delay(g) < next {
      AfterDelay(g, sent);
      NextTick(g, sent + Delay(g), next);
    }
  }

  lemma GridKept(g: Timing, e: Exchange, m: Move)
    requires OnGrid(g, e) && May(e, m)
    ensures OnGrid(g, After(g, e, m))
  {
    NextOnGrid(g, e.masterNext);
    NextOnGrid(g, e.slaveNext);
  }

  lemma NextOnGrid(g: Timing, t: int)
    requires Multiple(t, g.period)
    ensures Multiple(t + g.period, g.period)
  {
    var k: nat :| IsNth(k, g.period, t);
    assert IsNth(k + 1, g.period, t + g.period);
  }

  lemma MovesKeepInv(g: Timing, e: Exchange, m: Move)
    requires LinInv(g, e) && OnGrid(g, e) && May(e, m)
    ensures LinInv(g, After(g, e, m)) && OnGrid(g, After(g, e, m))
  {
    GridKept(g, e, m);
    match m
    case Idle(_, _) => IdleKeeps(g, e, m);
    case MasterTurn => MasterKeeps(g, e);
    case SlaveTurn =>
      SlaveOnGrid(g, e);
      SlaveKeeps(g, e);
    case HeaderOut => HeaderOutKeeps(g, e);
    case AnswerOut => AnswerOutKeeps(g, e);
    case HeaderIn => HeaderKeeps(g, e);
    case AnswerIn =>
      AnswerOnGrid(g, e);
      AnswerKeeps(g, e);
  }

  /** The slave is not past the moment at which the header it has not answered yet is due. */
  ghost predicate NoneMissed(g: Timing, e: Exchange) {
    var r := |e.responseTimes|;
    r < |e.sentTimes| ==> e.slaveNow <= e.sentTimes[r] + Delay(g) - g.period
  }

  lemma SlaveMissesNone(g: Timing, e: Exchange)
    requires SameTimes(e.headers, e.sentTimes, e.headerDue) && Alternates(e) && Owes(e) && Clocks(g, e)
    requires OnTime(g, e) && NoneMissed(g, e) && May(e, SlaveTurn)
    requires WholeTicks(g, e)
    ensures e.slaveNext != e.headerReceived + Delay(g) ==> NoneMissed(g, After(g, e, SlaveTurn))
  {
    var r := |e.responseTimes|;
    if r < |e.sentTimes| && e.gotHeaders == r && r < |e.headers| {
      assert e.headers[r] >= e.slaveNext;
    }
  }

  lemma NoneMissedKept(g: Timing, e: Exchange, m: Move)
    requires LinInv(g, e) && OnGrid(g, e) && NoneMissed(g, e) && May(e, m)
    ensures NoneMissed(g, After(g, e, m))
  {
    if m == SlaveTurn {
      if e.slaveNext == e.headerReceived + Delay(g) {
        NoSpuriousResponse(g, e);
      } else {
        SlaveOnGrid(g, e);
        SlaveMissesNone(g, e);
      }
    }
  }

  // ----- every run -----

  ghost predicate Safe(g: Timing, w: LinWorld) {
    && NetOk(g, w.net) && |w.due| == 2
    && LinInv(g, ExchangeOf(w)) && OnGrid(g, ExchangeOf(w)) && NoneMissed(g, ExchangeOf(w))
  }

  lemma InitialSafe(g: Timing, w: LinWorld)
    requires w == InitialLin(g) && NetOk(g, w.net)
    ensures Safe(g, w)
  {
    assert w.net.nodes[0] == InitialNode(BothEvery(g), 0);
    assert w.net.nodes[1] == InitialNode(BothEvery(g), 1);
  }

  lemma SafeKept(g: Timing, w: LinWorld, a: Action)
    requires Safe(g, w) && CanDo(w, a) && NetOk(g, Do(g, w, a).net)
    ensures Safe(g, Do(g, w, a))
  {
    DoNet(g, w, a);
    var m := EveryActionMoves(g, w, a);
    MovesKeepInv(g, ExchangeOf(w), m);
    NoneMissedKept(g, ExchangeOf(w), m);
  }

  lemma StepIsSafe(g: Timing, ws: seq<LinWorld>, acts: seq<Action>, k: nat)
    requires LinRun(g, ws, acts) && 0 < k < |ws| && Safe(g, ws[k - 1])
    ensures Safe(g, ws[k])
  {
    NetInv(g, ws, acts, k);
    StepOf(g, ws, acts, k - 1);
    SafeKept(g, ws[k - 1], acts[k - 1]);
  }

  lemma FirstIsSafe(g: Timing, ws: seq<LinWorld>, acts: seq<Action>)
    requires LinRun(g, ws, acts)
    ensures Safe(g, ws[0])
  {
    NetInv(g, ws, acts, 0);
    InitialSafe(g, ws[0]);
  }

  lemma StepOf(g: Timing, ws: seq<LinWorld>, acts: seq<Action>, k: nat)
    requires LinRun(g, ws, acts) && k < |acts|
    ensures CanDo(ws[k], acts[k]) && ws[k + 1] == Do(g, ws[k], acts[k])
  {
    assert LinStep(g, ws[k], acts[k], ws[k + 1]);
  }

  lemma {:induction false} RunIsSafe(g: Timing, ws: seq<LinWorld>, acts: seq<Action>, k: nat)
    requires LinRun(g, ws, acts) && k < |ws|
    ensures Safe(g, ws[k])
    decreases k
  {
    if k == 0 {
      FirstIsSafe(g, ws, acts);
    } else {
      RunIsSafe(g, ws, acts, k - 1);
      StepIsSafe(g, ws, acts, k);
    }
  }

  /** In every run each header is answered by exactly one response, on time, and the
      next header follows in the tick of that response or in the one after it. */
  lemma ResponsesFollowHeaders(g: Timing, ws: seq<LinWorld>, acts: seq<Action>, n: nat)
    requires LinRun(g, ws, acts) && n < |ws|
    ensures var w := ws[n];
            && |w.responseTimes| <= |w.sentTimes| <= |w.responseTimes| + 1
            && (w.sentTimes != [] ==> w.sentTimes[0] == 0)
            && (forall k | 0 <= k < |w.responseTimes| :: w.responseTimes[k] == w.sentTimes[k] + Delay(g))
            && (forall k | 0 < k < |w.sentTimes| ::
                  w.sentTimes[k] == w.responseTimes[k - 1] || w.sentTimes[k] == w.responseTimes[k - 1] + g.period)
  {
    RunIsSafe(g, ws, acts, n);
    var e := ExchangeOf(ws[n]);
    forall k | 0 < k < |e.sentTimes|
      ensures e.sentTimes[k] == e.responseTimes[k - 1] || e.sentTimes[k] == e.responseTimes[k - 1] + g.period
    {
      assert SameOrNextTick(g, e.sentTimes[k], e.responseTimes[k - 1]);
    }
  }

  /** The master waits exactly while one header more was sent than responses have arrived, and no
      header stays unanswered once the slave has stepped at the time due. */
  lemma MasterWaitsForOneResponse(g: Timing, ws: seq<LinWorld>, acts: seq<Action>, n: nat)
    requires LinRun(g, ws, acts) && n < |ws|
    ensures var w := ws[n];
            && |w.net.nodes| == 2 && Linked(w.net, 1, 0)
            && |w.sentTimes| == Got(w.net, 1, 0) + (if w.waiting then 1 else 0)
            && forall k | 0 <= k < |w.sentTimes| && w.net.nodes[1].times.current.timePoint >= w.sentTimes[k] + Delay(g)
                 :: k < |w.responseTimes|
  {
    RunIsSafe(g, ws, acts, n);
    WaitsForOne(g, ExchangeOf(ws[n]));
  }

  lemma WaitsForOne(g: Timing, e: Exchange)
    requires Alternates(e) && Sends(g, e) && OnTime(g, e) && NoneMissed(g, e)
    ensures |e.sentTimes| == e.gotAnswers + (if e.waiting then 1 else 0)
    ensures forall k | 0 <= k < |e.sentTimes| && e.slaveNow >= e.sentTimes[k] + Delay(g) :: k < |e.responseTimes|
  {}
}
