/** At which points in virtual time each participant steps, independently of the interleaving. */
module TimePoints {
  import opened TimeModel
  import opened TimeSync
  import opened TimeAlign

  ghost predicate Announces(nd: Node, t: int) {
    exists k | 0 <= k < |Announced(nd.log)| :: Announced(nd.log)[k].timePoint == t
  }

  /** The participant has begun a step at t. */
  ghost predicate Stepped(nd: Node, t: int) {
    t <= nd.times.current.timePoint && Announces(nd, t)
  }

  // ----- what an action can do to a participant's timeline -----

  ghost predicate Kept(nd: Node, nd': Node) {
    SameTimeline(nd, nd') && nd'.started == nd.started && nd'.executing == nd.executing
  }

  ghost predicate Announcing(nd: Node, nd': Node) {
    && (nd.executing || !nd.started) && nd'.started && !nd'.executing
    && Announced(nd'.log) == Announced(nd.log) + [nd.times.next] && nd'.times == nd.times
  }

  ghost predicate Beginning'(nd: Node, nd': Node) {
    MayBegin(nd) && nd' == Begun(nd)
  }

  lemma RequestEffect(nd: Node, nd': Node)
    requires NodeOk(nd) && nd' == Requested(nd.(started := true, executing := false))
    ensures Kept(nd, nd') || Announcing(nd, nd')
  {
    AnnouncedAppend(nd.log, Announce(nd.times.next));
  }

  lemma Effect(s: State, a: Action, i: nat)
    requires Inv(s) && Enabled(s, a) && In(s, i)
    ensures |Apply(s, a).nodes| == |s.nodes|
    ensures var nd, nd' := s.nodes[i], Apply(s, a).nodes[i];
            && (Kept(nd, nd') || Announcing(nd, nd') || Beginning'(nd, nd'))
            && (!a.Resize? ==> nd'.times.next.duration == nd.times.next.duration)
  {
    var nd, nd' := s.nodes[i], Apply(s, a).nodes[i];
    assert NodeSound(nd);
    if nd' == nd {
      assert Kept(nd, nd');
    } else {
      match a
      case Start(_) => RequestEffect(nd, nd');
      case Complete(_) => RequestEffect(nd, nd');
      case Publish(_, payload) =>
        AnnouncedAppend(nd.log, Data(nd.times.current.timePoint, payload));
        assert Kept(nd, nd');
      case Begin(_) => assert Beginning'(nd, nd');
      case Resize(_, _) => assert Kept(nd, nd');
      case Deliver(_, _) => assert Kept(nd, nd');
    }
  }

  lemma NonNegative(a: seq<Task>, dynamic: bool, k: nat)
    requires Chain(a, dynamic) && k < |a|
    ensures a[k].timePoint >= 0
  {
    if k > 0 {
      ChainAscends(a, dynamic, 0, k);
    }
  }

  /** Before its first step a participant has announced time zero and nothing else. */
  lemma FirstStep(nd: Node)
    requires NodeOk(nd) && nd.started && !nd.executing && nd.times.current.timePoint < 0
    ensures |Announced(nd.log)| == 1 && nd.times.next.timePoint == 0
  {
    var a := Announced(nd.log);
    if |a| > 1 {
      NonNegative(a, nd.times.dynamic, |a| - 2);
    }
  }

  // ----- dynamic participants miss no time point -----

  ghost predicate Covers(p: Node, q: Node) {
    forall k | 0 <= k < |Announced(q.log)| ::
      Announced(q.log)[k].timePoint <= p.times.current.timePoint ==> Announces(p, Announced(q.log)[k].timePoint)
  }

  ghost predicate CoverInv(nodes: seq<Node>) {
    forall p, q | 0 <= p < |nodes| && 0 <= q < |nodes| && nodes[p].times.dynamic :: Covers(nodes[p], nodes[q])
  }

  lemma AnnouncesMore(nd: Node, nd': Node, t: int)
    requires Announced(nd.log) <= Announced(nd'.log) && Announces(nd, t)
    ensures Announces(nd', t)
  {
    var k :| 0 <= k < |Announced(nd.log)| && Announced(nd.log)[k].timePoint == t;
    assert Announced(nd'.log)[k].timePoint == t;
  }

  lemma CoverKept(p: Node, p': Node, q: Node, q': Node)
    requires Covers(p, q)
    requires p'.times.current == p.times.current && Announced(p.log) <= Announced(p'.log)
    requires || Announced(q'.log) == Announced(q.log)
             || (Announced(q'.log) == Announced(q.log) + [q.times.next]
                 && q.times.next.timePoint > p.times.current.timePoint)
    ensures Covers(p', q')
  {
    var a := Announced(q'.log);
    forall k | 0 <= k < |a| && a[k].timePoint <= p'.times.current.timePoint
      ensures Announces(p', a[k].timePoint)
    {
      assert k < |Announced(q.log)|;
      AnnouncesMore(p, p', a[k].timePoint);
    }
  }

  lemma NewestIsAhead(nodes: seq<Node>, i: nat, p: nat)
    requires NodesOk(nodes) && AlignInv(nodes) && i < |nodes| && p < |nodes|
    requires nodes[i].executing || !nodes[i].started
    requires nodes[p].times.dynamic
    ensures nodes[i].times.next.timePoint > nodes[p].times.current.timePoint
  {
    assert NodeSound(nodes[i]) && NodeSound(nodes[p]);
    if Adapts(nodes[p].times) {
      AnnouncementAhead(nodes, p, i);
    } else if nodes[i].executing {
      NonNegative(Announced(nodes[i].log), nodes[i].times.dynamic, |Announced(nodes[i].log)| - 1);
    }
  }

  lemma CoverOfBegun(nodes: seq<Node>, p: nat, q: nat)
    requires NodesOk(nodes) && AlignInv(nodes) && p < |nodes| && q < |nodes|
    requires MayBegin(nodes[p]) && nodes[p].times.dynamic && Covers(nodes[p], nodes[q])
    ensures forall k | 0 <= k < |Announced(nodes[q].log)| ::
              Announced(nodes[q].log)[k].timePoint <= nodes[p].times.next.timePoint
              ==> Announces(nodes[p], Announced(nodes[q].log)[k].timePoint)
  {
    var t := nodes[p].times;
    var a, own := Announced(nodes[q].log), Announced(nodes[p].log);
    assert NodeSound(nodes[p]) && NodeSound(nodes[q]);
    forall k | 0 <= k < |a| && a[k].timePoint <= t.next.timePoint
      ensures Announces(nodes[p], a[k].timePoint)
    {
      NonNegative(a, nodes[q].times.dynamic, k);
      if Adapts(t) {
        assert NoneJumped(a, t.current.timePoint, t.next.timePoint);
        assert NotJumped(a[k], t.current.timePoint, t.next.timePoint);
      } else {
        FirstStep(nodes[p]);
      }
      if a[k].timePoint > t.current.timePoint {
        assert own[|own| - 1].timePoint == a[k].timePoint;
      }
    }
  }

  lemma PairStaysCovered(s: State, a: Action, p: nat, q: nat)
    requires Inv(s) && AlignInv(s.nodes) && Enabled(s, a) && In(s, p) && In(s, q)
    requires s.nodes[p].times.dynamic && Covers(s.nodes[p], s.nodes[q])
    ensures |Apply(s, a).nodes| == |s.nodes|
    ensures Covers(Apply(s, a).nodes[p], Apply(s, a).nodes[q])
  {
    if a == Begin(p) && !HopOn(s.nodes[p].times) {
      CoveredAfterBegin(s, p, q);
    } else {
      CoveredAfterOther(s, a, p, q);
    }
  }

  lemma CoveredAfterBegin(s: State, p: nat, q: nat)
    requires Inv(s) && AlignInv(s.nodes) && Enabled(s, Begin(p)) && !HopOn(s.nodes[p].times) && In(s, q)
    requires s.nodes[p].times.dynamic && Covers(s.nodes[p], s.nodes[q])
    ensures Covers(Apply(s, Begin(p)).nodes[p], Apply(s, Begin(p)).nodes[q])
  {
    CoverOfBegun(s.nodes, p, q);
  }

  lemma CoveredAfterOther(s: State, a: Action, p: nat, q: nat)
    requires Inv(s) && AlignInv(s.nodes) && Enabled(s, a) && In(s, p) && In(s, q)
    requires a != Begin(p) || HopOn(s.nodes[p].times)
    requires s.nodes[p].times.dynamic && Covers(s.nodes[p], s.nodes[q])
    ensures |Apply(s, a).nodes| == |s.nodes|
    ensures Covers(Apply(s, a).nodes[p], Apply(s, a).nodes[q])
  {
    var p', q' := Apply(s, a).nodes[p], Apply(s, a).nodes[q];
    Effect(s, a, q);
    Effect(s, a, p);
    if Announcing(s.nodes[q], q') {
      NewestIsAhead(s.nodes, q, p);
    }
    CoverKept(s.nodes[p], p', s.nodes[q], q');
  }

  lemma StepKeepsCover(s: State, a: Action)
    requires Inv(s) && AlignInv(s.nodes) && CoverInv(s.nodes) && Enabled(s, a)
    ensures CoverInv(Apply(s, a).nodes)
  {
    var nodes' := Apply(s, a).nodes;
    forall p, q | 0 <= p < |nodes'| && 0 <= q < |nodes'| && nodes'[p].times.dynamic
      ensures Covers(nodes'[p], nodes'[q])
    {
      Effect(s, a, p);
      PairStaysCovered(s, a, p, q);
    }
  }

  lemma {:induction false} RunCovers(c: Setup, ss: seq<State>, acts: seq<Action>, k: nat)
    requires Run(c, ss, acts) && k < |ss|
    ensures Inv(ss[k]) && AlignInv(ss[k].nodes) && CoverInv(ss[k].nodes)
    decreases k
  {
    RunAligns(c, ss, acts, k);
    if k == 0 {
    } else {
      RunCovers(c, ss, acts, k - 1);
      assert Step(ss[k - 1], acts[k - 1], ss[k]);
      StepKeepsCover(ss[k - 1], acts[k - 1]);
    }
  }

  /** Virtual time stops for a dynamic participant wherever it stops for anyone: in every run, with
      any step sizes and any changes of them, every time point another participant has stepped at
      is one of its own, as soon as it has come that far. */
  lemma DynamicMissesNothing(c: Setup, ss: seq<State>, acts: seq<Action>, k: nat, p: nat, q: nat, t: int)
    requires Run(c, ss, acts) && k < |ss| && p < |ss[k].nodes| && q < |ss[k].nodes|
    requires ss[k].nodes[p].times.dynamic
    requires Stepped(ss[k].nodes[q], t) && t <= ss[k].nodes[p].times.current.timePoint
    ensures Stepped(ss[k].nodes[p], t)
  {
    RunCovers(c, ss, acts, k);
    assert Covers(ss[k].nodes[p], ss[k].nodes[q]);
  }

  // ----- runs with constant step sizes -----

  ghost predicate Constant(acts: seq<Action>) {
    forall k | 0 <= k < |acts| :: !acts[k].Resize?
  }

  ghost predicate Periodic(nd: Node, period: int) {
    && nd.times.next.duration == period
    && forall k | 0 <= k < |Announced(nd.log)| :: Announced(nd.log)[k].duration == period
  }

  ghost predicate PeriodInv(c: Setup, nodes: seq<Node>) {
    && Valid(c) && |nodes| == |c.period|
    && forall i {:trigger nodes[i]} | 0 <= i < |nodes| ::
         nodes[i].times.dynamic == DynamicEnabled(c.mode, i) && Periodic(nodes[i], c.period[i])
  }

  lemma StepKeepsPeriod(c: Setup, s: State, a: Action)
    requires Inv(s) && PeriodInv(c, s.nodes) && Enabled(s, a) && !a.Resize?
    ensures PeriodInv(c, Apply(s, a).nodes)
  {
    var s' := Apply(s, a);
    forall i | 0 <= i < |s.nodes|
      ensures s'.nodes[i].times.dynamic == DynamicEnabled(c.mode, i) && Periodic(s'.nodes[i], c.period[i])
    {
      Effect(s, a, i);
    }
  }

  lemma {:induction false} RunPeriodic(c: Setup, ss: seq<State>, acts: seq<Action>, k: nat)
    requires Run(c, ss, acts) && Constant(acts) && k < |ss|
    ensures Inv(ss[k]) && AlignInv(ss[k].nodes) && CoverInv(ss[k].nodes) && PeriodInv(c, ss[k].nodes)
    decreases k
  {
    RunCovers(c, ss, acts, k);
    if k == 0 {
    } else {
      RunPeriodic(c, ss, acts, k - 1);
      assert Step(ss[k - 1], acts[k - 1], ss[k]);
      StepKeepsPeriod(c, ss[k - 1], acts[k - 1]);
    }
  }

  // ----- multiples, as repeated sums -----

  function Nth(k: nat, d: int): int {
    if k == 0 then 0 else Nth(k - 1, d) + d
  }

  lemma {:induction false} NthIsProduct(k: nat, d: int)
    ensures Nth(k, d) == k * d
  {
    if k == 0 {
    } else {
      NthIsProduct(k - 1, d);
    }
  }

  lemma {:induction false} NthAscends(k: nat, m: nat, d: int)
    requires d > 0 && k < m
    ensures Nth(k, d) + d <= Nth(m, d)
    decreases m
  {
    if k == m - 1 {
    } else {
      NthAscends(k, m - 1, d);
    }
  }

  lemma {:induction false} NthNonNegative(k: nat, d: nat)
    ensures Nth(k, d) >= 0
  {
    if k == 0 {
    } else {
      NthNonNegative(k - 1, d);
    }
  }

  lemma {:induction false} NthAdds(k: nat, m: nat, d: int)
    ensures Nth(k + m, d) == Nth(k, d) + Nth(m, d)
    decreases m
  {
    if m == 0 {
    } else {
      NthAdds(k, m - 1, d);
    }
  }

  predicate IsNth(k: nat, d: int, t: int) { Nth(k, d) == t }

  ghost predicate Multiple(t: int, d: int) {
    exists k: nat :: IsNth(k, d, t)
  }

  lemma MultipleIsModulo(t: int, d: int)
    requires d > 0
    ensures Multiple(t, d) <==> t >= 0 && t % d == 0
  {
    if k: nat :| IsNth(k, d, t) {
      NthIsProduct(k, d);
      ProductDivides(k, d);
    }
    if t >= 0 && t % d == 0 {
      NthIsProduct(t / d, d);
      assert IsNth(t / d, d, t);
    }
  }

  lemma FarFromZero(e: int, d: int)
    requires d > 0
    ensures (e >= 1 ==> e * d >= d) && (e <= -1 ==> e * d <= -d)
  {}

  lemma NoRest(k: nat, q: int, r: int, d: int)
    requires d > 0 && k * d == q * d + r && 0 <= r < d
    ensures r == 0
  {
    assert (k - q) * d == r;
    FarFromZero(k - q, d);
  }

  lemma ProductDivides(k: nat, d: int)
    requires d > 0
    ensures k * d >= 0 && (k * d) % d == 0
  {
    var x := k * d;
    NoRest(k, x / d, x % d, d);
  }

  /** The first multiple of d that is not before T. */
  lemma {:induction false} FirstNotBefore(T: int, d: int, m: nat) returns (h: nat)
    requires d > 0 && 0 <= T <= Nth(m, d)
    ensures h <= m && T <= Nth(h, d) < T + d
    decreases m
  {
    if m > 0 && Nth(m - 1, d) >= T {
      h := FirstNotBefore(T, d, m - 1);
    } else {
      h := m;
    }
  }

  lemma NoMultipleBetween(T: int, d: int, h: nat)
    requires d > 0 && T <= Nth(h, d) < T + d && Multiple(T, d)
    ensures Nth(h, d) == T
  {
    var k: nat :| IsNth(k, d, T);
    if k < h {
      NthAscends(k, h, d);
    } else if h < k {
      NthAscends(h, k, d);
    }
  }

  /** The k-th step of a participant that keeps its own step size begins at k times that size. */
  lemma {:induction false} OwnSteps(nd: Node, d: int, k: nat)
    requires NodeOk(nd) && Periodic(nd, d) && !nd.times.dynamic && k < |Announced(nd.log)|
    ensures Announced(nd.log)[k].timePoint == Nth(k, d) == k * d
    decreases k
  {
    NthIsProduct(k, d);
    if k == 0 {
    } else {
      OwnSteps(nd, d, k - 1);
      assert Follows(Announced(nd.log)[k - 1], Announced(nd.log)[k].timePoint, false);
    }
  }

  // ----- a driver with a fine step size sets the grid -----

  /** How many steps a participant has begun. */
  ghost function Steps(nd: Node): int {
    if nd.started && !nd.executing then |Announced(nd.log)| - 1 else |Announced(nd.log)|
  }

  lemma StepTime(nd: Node, d: int)
    requires NodeOk(nd) && Periodic(nd, d) && d > 0 && !nd.times.dynamic && nd.started
    ensures !nd.executing ==> nd.times.next.timePoint == Nth(Steps(nd), d)
    ensures nd.executing ==> Steps(nd) > 0 && nd.times.current.timePoint == Nth(Steps(nd) - 1, d)
    ensures nd.times.next.timePoint >= 0
  {
    var a := Announced(nd.log);
    OwnSteps(nd, d, |a| - 1);
    NthNonNegative(|a| - 1, d);
  }

  lemma OnPeriod(k: nat, d: int)
    requires d > 0
    ensures Nth(k, d) % d == 0
  {
    assert IsNth(k, d, Nth(k, d));
    MultipleIsModulo(Nth(k, d), d);
  }

  /** d is the smallest step size of a dynamic participant, and it divides all other own step sizes. */
  ghost predicate Grid(c: Setup, d: int)
    requires Valid(c)
  {
    && d > 0
    && (exists q | 0 <= q < |c.period| :: DynamicEnabled(c.mode, q) && c.period[q] == d)
    && forall q | 0 <= q < |c.period| :: FitsGrid(DynamicEnabled(c.mode, q), c.period[q], d)
  }

  predicate FitsGrid(dynamic: bool, period: int, d: int)
    requires d > 0
  {
    if dynamic then d <= period else period % d == 0
  }

  /** The participant's steps are at 0, d, 2d, ... */
  ghost predicate OnGrid(nd: Node, d: int) {
    var a := Announced(nd.log);
    && (forall k | 0 <= k < |a| :: a[k].timePoint == Nth(k, d))
    && (!nd.started || nd.executing ==> nd.times.next.timePoint == Nth(|a|, d))
  }

  ghost predicate GridInv(nodes: seq<Node>, d: int) {
    forall p | 0 <= p < |nodes| && nodes[p].times.dynamic :: OnGrid(nodes[p], d)
  }

  lemma GridAnnounced(nodes: seq<Node>, p: nat, T: int, len: int, q: nat, d: int, h: nat)
    requires Beginning(nodes, p, T, len) && GridInv(nodes, d) && d > 0 && q < |nodes|
    requires nodes[p].times.dynamic && nodes[q].times.dynamic && T == Nth(h, d)
    ensures h < |Announced(nodes[q].log)| && Announced(nodes[q].log)[h].timePoint == T
  {
    assert OnGrid(nodes[p], d) && OnGrid(nodes[q], d);
    var m: nat;
    if q == p {
      assert NodeSound(nodes[p]);
      m := |Announced(nodes[p].log)| - 1;
    } else {
      m := KnownIndex(nodes, p, T, len, q);
    }
    assert Announced(nodes[q].log)[m].timePoint == Nth(m, d);
    if m < h {
      NthAscends(m, h, d);
    }
    assert Announced(nodes[q].log)[h].timePoint == Nth(h, d);
  }

  /** Multiples of a multiple. */
  lemma {:induction false} NthOfMultiple(k: nat, e: int, d: int) returns (m: nat)
    requires Multiple(e, d)
    ensures Nth(k, e) == Nth(m, d)
    decreases k
  {
    m := 0;
    if k == 0 {
    } else {
      var j: nat :| IsNth(j, d, e);
      m := NthOfMultiple(k - 1, e, d);
      NthAdds(m, j, d);
      m := m + j;
    }
  }

  lemma NextOnGrid(c: Setup, nodes: seq<Node>, p: nat, T: int, len: int, d: int, h: nat)
    requires Beginning(nodes, p, T, len) && nodes[p].times.dynamic && T == Nth(h, d)
    requires PeriodInv(c, nodes) && Grid(c, d) && GridInv(nodes, d)
    ensures len == d
  {
    var driver := Driver(c, nodes, d);
    EndsByDriver(nodes, p, T, len, driver, d, h);
    HasReason(nodes, p, T, len);
    var q, k := SourceMeans(nodes, T, T + len);
    Fits(c, nodes, q, d);
    ReachesGrid(c, nodes, p, T, len, q, k, d, h);
  }

  lemma Driver(c: Setup, nodes: seq<Node>, d: int) returns (q: nat)
    requires PeriodInv(c, nodes) && Grid(c, d)
    ensures q < |nodes| && nodes[q].times.dynamic && Periodic(nodes[q], d)
  {
    q :| 0 <= q < |c.period| && DynamicEnabled(c.mode, q) && c.period[q] == d;
  }

  lemma Fits(c: Setup, nodes: seq<Node>, q: nat, d: int)
    requires PeriodInv(c, nodes) && Grid(c, d) && q < |nodes|
    ensures FitsGrid(nodes[q].times.dynamic, c.period[q], d)
  {}

  lemma EndsByDriver(nodes: seq<Node>, p: nat, T: int, len: int, driver: nat, d: int, h: nat)
    requires Beginning(nodes, p, T, len) && nodes[p].times.dynamic && T == Nth(h, d) && d > 0
    requires GridInv(nodes, d) && driver < |nodes| && nodes[driver].times.dynamic && Periodic(nodes[driver], d)
    ensures len <= d
  {
    GridAnnounced(nodes, p, T, len, driver, d, h);
    BoundedByStepAt(nodes, p, T, len, driver, h);
  }

  lemma ReachesGrid(c: Setup, nodes: seq<Node>, p: nat, T: int, len: int, q: nat, k: nat, d: int, h: nat)
    requires Beginning(nodes, p, T, len) && nodes[p].times.dynamic && T == Nth(h, d) && d > 0
    requires PeriodInv(c, nodes) && GridInv(nodes, d) && Source(nodes, T, T + len, q, k)
    requires FitsGrid(nodes[q].times.dynamic, c.period[q], d)
    ensures len >= d
  {
    if nodes[q].times.dynamic {
      GridAnnounced(nodes, p, T, len, q, d, h);
    } else {
      assert NodeSound(nodes[q]);
      OwnReachesGrid(c, nodes, q, k, d, h, T + len);
    }
  }

  lemma OwnReachesGrid(c: Setup, nodes: seq<Node>, q: nat, k: nat, d: int, h: nat, to: int)
    requires PeriodInv(c, nodes) && d > 0 && q < |nodes| && !nodes[q].times.dynamic && NodeOk(nodes[q])
    requires FitsGrid(false, c.period[q], d)
    requires k < |Announced(nodes[q].log)|
    requires to == Announced(nodes[q].log)[k].timePoint || to == Announced(nodes[q].log)[k].timePoint + c.period[q]
    requires to > Nth(h, d)
    ensures to >= Nth(h, d) + d
  {
    var e := c.period[q];
    OwnSteps(nodes[q], e, k);
    MultipleIsModulo(e, d);
    var m := NthOfMultiple(if to == Nth(k, e) then k else k + 1, e, d);
    if m <= h {
      if m < h {
        NthAscends(m, h, d);
      }
    } else {
      NthAscends(h, m, d);
    }
  }

  lemma GridKept(nd: Node, nd': Node, d: int)
    requires NodeOk(nd) && OnGrid(nd, d)
    requires || Kept(nd, nd') || Announcing(nd, nd')
             || (Beginning'(nd, nd') && LengthOf(nd.times) == d)
    ensures OnGrid(nd', d)
  {
    var a, a' := Announced(nd.log), Announced(nd'.log);
    forall k | 0 <= k < |a'| ensures a'[k].timePoint == Nth(k, d) {
      assert k < |a| ==> a[k].timePoint == Nth(k, d);
    }
  }

  lemma StepKeepsGrid(c: Setup, s: State, a: Action, d: int)
    requires Inv(s) && AlignInv(s.nodes) && PeriodInv(c, s.nodes) && Grid(c, d) && GridInv(s.nodes, d)
    requires Enabled(s, a) && !a.Resize?
    ensures GridInv(Apply(s, a).nodes, d)
  {
    var s' := Apply(s, a);
    forall p | 0 <= p < |s'.nodes| && s'.nodes[p].times.dynamic
      ensures OnGrid(s'.nodes[p], d)
    {
      Effect(s, a, p);
      assert OnGrid(s.nodes[p], d) && NodeSound(s.nodes[p]);
      if Beginning'(s.nodes[p], s'.nodes[p]) {
        NextOnGrid(c, s.nodes, p, s.nodes[p].times.next.timePoint, LengthOf(s.nodes[p].times), d,
                   |Announced(s.nodes[p].log)| - 1);
      }
      GridKept(s.nodes[p], s'.nodes[p], d);
    }
  }

  /** All dynamic participants, the driver and its followers, step exactly at the multiples of the
      driver's step size. */
  lemma {:induction false} FollowersStepOnGrid(c: Setup, ss: seq<State>, acts: seq<Action>, k: nat, d: int)
    requires Run(c, ss, acts) && Constant(acts) && k < |ss| && Grid(c, d)
    ensures GridInv(ss[k].nodes, d)
    decreases k
  {
    if k == 0 {
    } else {
      FollowersStepOnGrid(c, ss, acts, k - 1, d);
      RunPeriodic(c, ss, acts, k - 1);
      assert Step(ss[k - 1], acts[k - 1], ss[k]);
      StepKeepsGrid(c, ss[k - 1], acts[k - 1], d);
    }
  }
}
