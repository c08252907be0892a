/** The distributed time algorithm: n participants, each with its own time configuration, that
    announce their next step and their data to all others over links that keep the order.

    A link is a log. Everything participant j ever sent is `nodes[j].log`, and `nodes[i].seen[j]`
    says how much of it has reached participant i, so that what is under way on the link is
    `nodes[j].log[nodes[i].seen[j]..]`. Actions of different participants interleave freely. */
module TimeSync {
  import opened Basics
  import opened TimeModel

  datatype Packet = Announce(task: Task) | Data(sent: int, payload: int)

  datatype Node = Node(
    times: Times<nat>,    // the participant's TimeConfiguration
    lastSent: int,        // the time point it announced last, -1 before the first announcement
    started: bool,        // its time has been started
    executing: bool,      // a step has begun and is not completed
    log: seq<Packet>,     // everything it has sent
    seen: seq<nat>)       // how much of every other participant's log it has received

  datatype State = State(nodes: seq<Node>, aborted: bool)

  datatype Action =
    | Start(who: nat)                  // StartTime
    | Begin(who: nat)                  // the step handler is invoked
    | Resize(who: nat, duration: int)  // a step handler registers a new step size
    | Publish(who: nat, payload: int)  // data is sent within the step
    | Complete(who: nat)               // the handler returns, or CompleteSimulationStep is called
    | Deliver(from: nat, to: nat)      // the next packet of a link arrives

  // ----- what has been announced -----

  function Announced(log: seq<Packet>): (r: seq<Task>) {
    if log == [] then []
    else
      var front := Announced(log[..|log| - 1]);
      if log[|log| - 1].Announce? then front + [log[|log| - 1].task] else front
  }

  /** The last announcement in a log: what its receiver knows about its sender. */
  function View(log: seq<Packet>): Task { Last(Announced(log)) }

  function Last(a: seq<Task>): Task {
    if a == [] then UNKNOWN else a[|a| - 1]
  }

  lemma {:induction false} AnnouncedPrefix(log: seq<Packet>, k: nat)
    requires k <= |log|
    ensures Announced(log[..k]) <= Announced(log)
    decreases |log|
  {
    if k == |log| {
      assert log[..k] == log;
    } else {
      assert log[..|log| - 1][..k] == log[..k];
      AnnouncedPrefix(log[..|log| - 1], k);
    }
  }

  lemma AnnouncedAppend(log: seq<Packet>, p: Packet)
    ensures Announced(log + [p]) == if p.Announce? then Announced(log) + [p.task] else Announced(log)
  {
    assert (log + [p])[..|log|] == log;
  }

  // ----- actions -----

  predicate In(s: State, i: nat) { i < |s.nodes| }

  ghost predicate Enabled(s: State, a: Action) {
    && !s.aborted
    && match a
       case Start(i) => In(s, i) && !s.nodes[i].started
       case Begin(i) => In(s, i) && MayBegin(s.nodes[i])
       case Resize(i, d) => In(s, i) && s.nodes[i].executing && d > 0
       case Publish(i, _) => In(s, i) && s.nodes[i].executing
       case Complete(i) => In(s, i) && s.nodes[i].started
       case Deliver(j, i) =>
         && In(s, i) && In(s, j) && i != j
         && j < |s.nodes[i].seen| && s.nodes[i].seen[j] < |s.nodes[j].log|
  }

  ghost predicate MayBegin(nd: Node) {
    nd.started && !nd.executing && !Blocked(nd.times) && nd.times.next.duration > 0
  }

  ghost function Apply(s: State, a: Action): State
    requires Enabled(s, a)
  {
    match a
    case Start(i) => s.(nodes := s.nodes[i := Requested(s.nodes[i].(started := true))])
    case Begin(i) =>
      if HopOn(s.nodes[i].times) then s.(aborted := true)
      else s.(nodes := s.nodes[i := Begun(s.nodes[i])])
    case Resize(i, d) => s.(nodes := s.nodes[i := Resized(s.nodes[i], d)])
    case Publish(i, payload) => s.(nodes := s.nodes[i := Published(s.nodes[i], payload)])
    case Complete(i) => s.(nodes := s.nodes[i := Requested(s.nodes[i].(executing := false))])
    case Deliver(j, i) => s.(nodes := s.nodes[i := Delivered(s.nodes[i], j, s.nodes[j].log)])
  }

  /** Announces the next step, unless it was announced already. */
  function Requested(nd: Node): Node {
    if nd.lastSent == nd.times.next.timePoint then nd
    else nd.(lastSent := nd.times.next.timePoint, log := nd.log + [Announce(nd.times.next)])
  }

  ghost function Begun(nd: Node): Node
    requires nd.times.next.duration > 0
  {
    nd.(times := Advanced(nd.times, LengthOf(nd.times)), executing := true)
  }

  function Resized(nd: Node, d: int): Node {
    nd.(times := nd.times.(next := nd.times.next.(duration := d)))
  }

  function Published(nd: Node, payload: int): Node {
    nd.(log := nd.log + [Data(nd.times.current.timePoint, payload)])
  }

  function Delivered(nd: Node, j: nat, log: seq<Packet>): Node
    requires j < |nd.seen| && nd.seen[j] < |log|
  {
    var p := log[nd.seen[j]];
    var nd' := nd.(seen := nd.seen[j := nd.seen[j] + 1]);
    if p.Announce? then nd'.(times := Receive(nd.times, j, p.task)) else nd'
  }

  // ----- setup and runs -----

  /** Step sizes, and the tri-state preference for dynamic stepping: true drives it for everyone,
      false opts out, none follows the network. */
  datatype Setup = Setup(period: seq<int>, mode: seq<Option<bool>>)

  predicate Valid(c: Setup) {
    |c.period| == |c.mode| && forall i | 0 <= i < |c.period| :: c.period[i] > 0
  }

  ghost predicate DynamicEnabled(mode: seq<Option<bool>>, i: nat)
    requires i < |mode|
  {
    || mode[i] == Some(true)
    || (mode[i] == None && exists j :: 0 <= j < |mode| && j != i && mode[j] == Some(true))
  }

  function UnknownPeers(n: nat, i: nat): (r: map<nat, Task>)
    ensures forall j: nat :: j in r <==> j < n && j != i
    ensures forall j | j in r :: r[j] == UNKNOWN
  {
    if n == 0 then map[]
    else
      var r := UnknownPeers(n - 1, i);
      if n - 1 == i then r else r[n - 1 := UNKNOWN]
  }

  ghost function InitialNode(c: Setup, i: nat): Node
    requires Valid(c) && i < |c.period|
  {
    Node(Times(UNKNOWN, Task(0, c.period[i]),
               UnknownPeers(|c.period|, i),
               DynamicEnabled(c.mode, i)),
         -1, false, false, [], seq(|c.period|, _ => 0))
  }

  ghost function Initial(c: Setup): State
    requires Valid(c)
  {
    State(seq(|c.period|, i requires 0 <= i < |c.period| => InitialNode(c, i)), false)
  }

  /** A run: states joined by actions that were enabled, in any order. */
  ghost predicate Run(c: Setup, ss: seq<State>, acts: seq<Action>) {
    && Valid(c) && |ss| == |acts| + 1 && ss[0] == Initial(c)
    && forall k | 0 <= k < |acts| :: Step(ss[k], acts[k], ss[k + 1])
  }

  ghost predicate Step(s: State, a: Action, s': State) {
    Enabled(s, a) && s' == Apply(s, a)
  }

  // ----- the invariant -----

  /** `t` is where the step announced as `x` may end. */
  predicate Follows(x: Task, t: int, dynamic: bool) {
    x.timePoint < t <= x.timePoint + x.duration && (!dynamic ==> t == x.timePoint + x.duration)
  }

  /** Announced steps begin at zero and each one starts where the one before ended. */
  ghost predicate Chain(a: seq<Task>, dynamic: bool) {
    && (a != [] ==> a[0].timePoint == 0)
    && (forall k | 0 <= k < |a| :: a[k].duration > 0)
    && forall k | 0 < k < |a| :: Follows(a[k - 1], a[k].timePoint, dynamic)
  }

  ghost predicate NodeOk(nd: Node) {
    var a := Announced(nd.log);
    var t := nd.times;
    && t.next.duration > 0
    && Chain(a, t.dynamic)
    && (!nd.started ==>
          a == [] && !nd.executing && t.current == UNKNOWN && t.next.timePoint == 0 && nd.lastSent == -1)
    && (nd.started ==> a != [] && nd.lastSent == a[|a| - 1].timePoint)
    && (nd.executing ==>
          && nd.started
          && a[|a| - 1].timePoint == t.current.timePoint
          && Follows(a[|a| - 1], t.next.timePoint, t.dynamic)
          && t.next.timePoint == t.current.timePoint + t.current.duration)
    && (nd.started && !nd.executing ==> a[|a| - 1] == t.next)
    && (nd.started && !nd.executing && |a| == 1 ==> t.current == UNKNOWN)
    && (nd.started && !nd.executing && |a| > 1 ==>
          && a[|a| - 2].timePoint == t.current.timePoint
          && t.next.timePoint == t.current.timePoint + t.current.duration)
  }

  /** Data carries the time point of the step it was sent in, which is the one announced before,
      and that step is no later than the sender's current one. */
  ghost predicate DataOk(log: seq<Packet>, now: int) {
    forall b | 0 <= b < |log| && log[b].Data? :: Stamped(log, b, now)
  }

  ghost predicate Stamped(log: seq<Packet>, b: nat, now: int)
    requires b < |log| && log[b].Data?
  {
    log[b].sent == View(log[..b]).timePoint && 0 <= log[b].sent <= now
  }

  /** What i knows of j is the last announcement that has reached it, and i has never stepped
      beyond it. */
  ghost predicate LinkOk(nodes: seq<Node>, i: nat, j: nat)
    requires i < |nodes| && j < |nodes|
  {
    Knows(nodes[i], j, nodes[j].log)
  }

  ghost predicate Knows(nd: Node, j: nat, log: seq<Packet>) {
    && j < |nd.seen| && nd.seen[j] <= |log|
    && j in nd.times.others
    && nd.times.others[j] == View(log[..nd.seen[j]])
    && nd.times.current.timePoint <= nd.times.others[j].timePoint
  }

  ghost predicate Shape(nd: Node, i: nat, n: nat) {
    && |nd.seen| == n
    && forall j: nat :: j in nd.times.others <==> j < n && j != i
  }

  ghost predicate NodeSound(nd: Node) {
    NodeOk(nd) && DataOk(nd.log, nd.times.current.timePoint)
  }

  ghost predicate NodesOk(nodes: seq<Node>) {
    && (forall i | 0 <= i < |nodes| :: Shape(nodes[i], i, |nodes|) && NodeSound(nodes[i]))
    && forall i, j | 0 <= i < |nodes| && 0 <= j < |nodes| && i != j :: LinkOk(nodes, i, j)
  }

  ghost predicate Inv(s: State) { NodesOk(s.nodes) }

  lemma {:induction false} ChainAscends(a: seq<Task>, dynamic: bool, k: nat, m: nat)
    requires Chain(a, dynamic) && k < m < |a|
    ensures a[k].timePoint < a[m].timePoint
    decreases m
  {
    assert Follows(a[m - 1], a[m].timePoint, dynamic);
    if k == m - 1 {
    } else {
      ChainAscends(a, dynamic, k, m - 1);
    }
  }

  lemma LastAscends(a: seq<Task>, b: seq<Task>, dynamic: bool)
    requires a <= b && Chain(b, dynamic)
    ensures Last(a).timePoint <= Last(b).timePoint
  {
    if a == [] && |b| > 1 {
      ChainAscends(b, dynamic, 0, |b| - 1);
    } else if 0 < |a| < |b| {
      ChainAscends(b, dynamic, |a| - 1, |b| - 1);
    }
  }

  /** Announcements only go forward, so what a receiver knows is never ahead of its sender. */
  lemma ViewAscends(log: seq<Packet>, dynamic: bool, k: nat, m: nat)
    requires k <= m <= |log| && Chain(Announced(log), dynamic)
    ensures View(log[..k]).timePoint <= View(log[..m]).timePoint
    ensures View(log[..m]).timePoint <= View(log).timePoint
  {
    assert log[..m][..k] == log[..k];
    AnnouncedPrefix(log[..m], k);
    AnnouncedPrefix(log, m);
    ChainPrefix(Announced(log[..m]), Announced(log), dynamic);
    LastAscends(Announced(log[..k]), Announced(log[..m]), dynamic);
    LastAscends(Announced(log[..m]), Announced(log), dynamic);
  }

  lemma ChainPrefix(a: seq<Task>, b: seq<Task>, dynamic: bool)
    requires a <= b && Chain(b, dynamic)
    ensures Chain(a, dynamic)
  {
    forall k | 0 < k < |a| ensures Follows(a[k - 1], a[k].timePoint, dynamic) {
      assert Follows(b[k - 1], b[k].timePoint, dynamic);
    }
  }

  // ----- the invariant holds in every run -----

  lemma InitialInv(c: Setup)
    requires Valid(c)
    ensures Inv(Initial(c))
  {
    var nodes := Initial(c).nodes;
    forall i, j | 0 <= i < |nodes| && 0 <= j < |nodes| && i != j
      ensures LinkOk(nodes, i, j)
    {
      assert nodes[j].log[..0] == [];
    }
  }

  /** A participant that knows enough of all others to be where it is. */
  ghost predicate NotBeyond(t: Times<nat>) {
    forall j | j in t.others :: t.current.timePoint <= t.others[j].timePoint
  }

  lemma NeverBeyond(nodes: seq<Node>, i: nat)
    requires NodesOk(nodes) && i < |nodes|
    ensures NotBeyond(nodes[i].times)
  {
    assert Shape(nodes[i], i, |nodes|);
    forall j | j in nodes[i].times.others
      ensures nodes[i].times.current.timePoint <= nodes[i].times.others[j].timePoint
    {
      assert LinkOk(nodes, i, j);
    }
  }

  /** A participant may append to its log and move its own times, as long as it moves no further
      than what it knows of the others. */
  lemma LinksKept(nodes: seq<Node>, i: nat, nd: Node)
    requires NodesOk(nodes) && i < |nodes|
    requires nodes[i].log <= nd.log && nd.seen == nodes[i].seen
    requires nd.times.others == nodes[i].times.others
    requires NotBeyond(nd.times) && NodeSound(nd)
    ensures NodesOk(nodes[i := nd])
  {
    var nodes' := nodes[i := nd];
    forall k | 0 <= k < |nodes'|
      ensures Shape(nodes'[k], k, |nodes'|) && NodeSound(nodes'[k])
    {
      assert Shape(nodes[k], k, |nodes|);
    }
    forall k, j | 0 <= k < |nodes'| && 0 <= j < |nodes'| && k != j
      ensures LinkOk(nodes', k, j)
    {
      assert LinkOk(nodes, k, j);
      if j == i {
        var n := nodes[k].seen[j];
        assert nd.log[..n] == nodes[i].log[..n];
      }
    }
  }

  lemma AppendData(log: seq<Packet>, p: Packet, now: int)
    requires DataOk(log, now)
    requires p.Data? ==> p.sent == View(log).timePoint && 0 <= p.sent <= now
    ensures DataOk(log + [p], now)
  {
    var log' := log + [p];
    forall b | 0 <= b < |log'| && log'[b].Data?
      ensures Stamped(log', b, now)
    {
      assert log'[..b] == log[..b];
      if b < |log| {
        assert Stamped(log, b, now);
      } else {
        assert log[..b] == log;
      }
    }
  }

  lemma ChainAppend(a: seq<Task>, x: Task, dynamic: bool)
    requires Chain(a, dynamic) && x.duration > 0
    requires if a == [] then x.timePoint == 0 else Follows(a[|a| - 1], x.timePoint, dynamic)
    ensures Chain(a + [x], dynamic)
  {
    var b := a + [x];
    forall k | 0 < k < |b| ensures Follows(b[k - 1], b[k].timePoint, dynamic) {
      assert k < |a| ==> Follows(a[k - 1], a[k].timePoint, dynamic);
    }
  }

  /** Announcing keeps a participant's own record in order, also when the call is repeated. */
  lemma RequestedOk(nd: Node, nd': Node)
    requires NodeSound(nd)
    requires nd' == Requested(nd.(started := true, executing := false))
    ensures NodeSound(nd')
  {
    if !nd.started || nd.executing {
      AnnouncedAppend(nd.log, Announce(nd.times.next));
      AppendData(nd.log, Announce(nd.times.next), nd.times.current.timePoint);
      ChainAppend(Announced(nd.log), nd.times.next, nd.times.dynamic);
    }
  }

  lemma BegunOk(nd: Node)
    requires NodeSound(nd) && MayBegin(nd)
    ensures NodeSound(Begun(nd))
  {
    var a := Announced(nd.log);
    assert a[|a| - 1] == nd.times.next;
    var now' := nd.times.next.timePoint;
    forall b | 0 <= b < |nd.log| && nd.log[b].Data? ensures Stamped(nd.log, b, now') {
      assert Stamped(nd.log, b, nd.times.current.timePoint);
    }
  }

  lemma PublishedOk(nd: Node, payload: int)
    requires NodeSound(nd) && nd.executing
    ensures NodeSound(Published(nd, payload))
  {
    var p := Data(nd.times.current.timePoint, payload);
    AnnouncedAppend(nd.log, p);
    LastAscends(Announced(nd.log)[..1], Announced(nd.log), nd.times.dynamic);
    AppendData(nd.log, p, nd.times.current.timePoint);
  }

  lemma DeliverKeepsInv(nodes: seq<Node>, j: nat, i: nat)
    requires NodesOk(nodes) && i < |nodes| && j < |nodes| && i != j
    requires j < |nodes[i].seen| && nodes[i].seen[j] < |nodes[j].log|
    ensures NodesOk(nodes[i := Delivered(nodes[i], j, nodes[j].log)])
  {
    var nd := nodes[i];
    var nd' := Delivered(nd, j, nodes[j].log);
    var nodes' := nodes[i := nd'];
    DeliveredKnows(nodes, j, i);
    forall k | 0 <= k < |nodes'|
      ensures Shape(nodes'[k], k, |nodes'|) && NodeSound(nodes'[k])
    {
      assert Shape(nodes[k], k, |nodes|);
    }
    forall k, m | 0 <= k < |nodes'| && 0 <= m < |nodes'| && k != m
      ensures LinkOk(nodes', k, m)
    {
      assert LinkOk(nodes, k, m);
      assert nodes'[m].log == nodes[m].log;
      if k == i && m != j {
        assert nd'.seen[m] == nd.seen[m];
      }
    }
  }

  lemma DeliveredKnows(nodes: seq<Node>, j: nat, i: nat)
    requires NodesOk(nodes) && i < |nodes| && j < |nodes| && i != j
    requires j < |nodes[i].seen| && nodes[i].seen[j] < |nodes[j].log|
    ensures Knows(Delivered(nodes[i], j, nodes[j].log), j, nodes[j].log)
    ensures NodeSound(Delivered(nodes[i], j, nodes[j].log))
    ensures Shape(Delivered(nodes[i], j, nodes[j].log), i, |nodes|)
  {
    var log := nodes[j].log;
    var n := nodes[i].seen[j];
    assert LinkOk(nodes, i, j);
    assert log[..n + 1] == log[..n] + [log[n]];
    AnnouncedAppend(log[..n], log[n]);
    ViewAscends(log, nodes[j].times.dynamic, n, n + 1);
  }

  lemma StepKeepsInv(s: State, a: Action)
    requires Inv(s) && Enabled(s, a)
    ensures Inv(Apply(s, a))
  {
    match a
    case Start(i) =>
      NeverBeyond(s.nodes, i);
      var nd := Requested(s.nodes[i].(started := true));
      RequestedOk(s.nodes[i], nd);
      LinksKept(s.nodes, i, nd);
    case Begin(i) =>
      if !HopOn(s.nodes[i].times) {
        BegunOk(s.nodes[i]);
        LinksKept(s.nodes, i, Begun(s.nodes[i]));
      }
    case Resize(i, d) =>
      NeverBeyond(s.nodes, i);
      LinksKept(s.nodes, i, Resized(s.nodes[i], d));
    case Publish(i, payload) =>
      NeverBeyond(s.nodes, i);
      PublishedOk(s.nodes[i], payload);
      LinksKept(s.nodes, i, Published(s.nodes[i], payload));
    case Complete(i) =>
      NeverBeyond(s.nodes, i);
      var nd := Requested(s.nodes[i].(executing := false));
      RequestedOk(s.nodes[i], nd);
      LinksKept(s.nodes, i, nd);
    case Deliver(j, i) => DeliverKeepsInv(s.nodes, j, i);
  }

  lemma {:induction false} RunInv(c: Setup, ss: seq<State>, acts: seq<Action>, k: nat)
    requires Run(c, ss, acts) && k < |ss|
    ensures Inv(ss[k])
    decreases k
  {
    if k == 0 {
      InitialInv(c);
    } else {
      RunInv(c, ss, acts, k - 1);
      assert Step(ss[k - 1], acts[k - 1], ss[k]);
      StepKeepsInv(ss[k - 1], acts[k - 1]);
    }
  }
}
