/** Coarse dynamic participants: the time points at which they step are exactly those at which the
    participants step that keep their own step size, also when step sizes change during the run. */
module TimeUnion {
  import opened TimeModel
  import opened TimeSync
  import opened TimeSafety
  import opened TimeAlign
  import opened TimePoints

  /** Any two dynamic participants step at the same points, as far as both have come. */
  lemma DynamicStepTogether(c: Setup, ss: seq<State>, acts: seq<Action>, k: nat, p: nat, q: nat, t: int)
    requires Run(c, ss, acts) && k < |ss| && p < |ss[k].nodes| && q < |ss[k].nodes|
    requires ss[k].nodes[p].times.dynamic && ss[k].nodes[q].times.dynamic
    requires t <= ss[k].nodes[p].times.current.timePoint && t <= ss[k].nodes[q].times.current.timePoint
    ensures Stepped(ss[k].nodes[p], t) <==> Stepped(ss[k].nodes[q], t)
  {
    if Stepped(ss[k].nodes[q], t) {
      DynamicMissesNothing(c, ss, acts, k, p, q, t);
    }
    if Stepped(ss[k].nodes[p], t) {
      DynamicMissesNothing(c, ss, acts, k, q, p, t);
    }
  }

  /** ... and their steps at the same point have the same length. */
  lemma DynamicSameLength(c: Setup, ss: seq<State>, acts: seq<Action>, k: nat, p: nat, q: nat)
    requires Run(c, ss, acts) && k < |ss| && p < |ss[k].nodes| && q < |ss[k].nodes|
    requires Adapts(ss[k].nodes[p].times) && Adapts(ss[k].nodes[q].times)
    requires ss[k].nodes[p].times.current.timePoint == ss[k].nodes[q].times.current.timePoint
    ensures ss[k].nodes[p].times.next.timePoint == ss[k].nodes[q].times.next.timePoint
  {
    RunAligns(c, ss, acts, k);
    NotLonger(ss[k].nodes, p, q);
    NotLonger(ss[k].nodes, q, p);
  }

  lemma NotLonger(nodes: seq<Node>, p: nat, q: nat)
    requires AlignInv(nodes) && p < |nodes| && q < |nodes| && Adapts(nodes[p].times) && Adapts(nodes[q].times)
    requires nodes[p].times.current.timePoint == nodes[q].times.current.timePoint
    ensures nodes[q].times.next.timePoint <= nodes[p].times.next.timePoint
  {
    var T, to := nodes[p].times.current.timePoint, nodes[p].times.next.timePoint;
    var r, h := SourceMeans(nodes, T, to);
    assert NoneJumped(Announced(nodes[r].log), T, nodes[q].times.next.timePoint);
    assert NotJumped(Announced(nodes[r].log)[h], T, nodes[q].times.next.timePoint);
  }

  /** Where a dynamic participant steps, every other dynamic one has announced a step. */
  lemma AllAnnounce(nodes: seq<Node>, p: nat, q: nat)
    requires NodesOk(nodes) && AlignInv(nodes) && CoverInv(nodes) && p < |nodes| && q < |nodes|
    requires Adapts(nodes[p].times) && nodes[q].times.dynamic
    ensures Announces(nodes[q], nodes[p].times.current.timePoint)
  {
    var T := nodes[p].times.current.timePoint;
    var own := Announced(nodes[p].log);
    assert NodeSound(nodes[p]) && NodeSound(nodes[q]);
    assert Announces(nodes[p], T) by {
      assert own[if nodes[p].executing then |own| - 1 else |own| - 2].timePoint == T;
    }
    var h :| 0 <= h < |own| && own[h].timePoint == T;
    if T <= nodes[q].times.current.timePoint {
      assert Covers(nodes[q], nodes[p]);
    } else {
      NextIsIt(nodes, p, q, h);
    }
  }

  lemma NextIsIt(nodes: seq<Node>, p: nat, q: nat, h: nat)
    requires NodesOk(nodes) && AlignInv(nodes) && p < |nodes| && q < |nodes| && p != q
    requires Adapts(nodes[p].times) && nodes[q].times.dynamic && h < |Announced(nodes[p].log)|
    requires nodes[q].times.current.timePoint < nodes[p].times.current.timePoint == Announced(nodes[p].log)[h].timePoint
    ensures Announces(nodes[q], nodes[p].times.current.timePoint)
  {
    var T, a := nodes[p].times.current.timePoint, Announced(nodes[q].log);
    KnownAnnounced(nodes, p, q);
    assert NodeSound(nodes[q]) && a != [] && !nodes[q].executing;
    if Adapts(nodes[q].times) {
      assert NoneJumped(Announced(nodes[p].log), nodes[q].times.current.timePoint, nodes[q].times.next.timePoint);
      assert NotJumped(Announced(nodes[p].log)[h], nodes[q].times.current.timePoint, nodes[q].times.next.timePoint);
    } else {
      NonNegative(a, true, |a| - 1);
      if |a| > 1 {
        NonNegative(a, true, |a| - 2);
      }
    }
    assert a[|a| - 1].timePoint == T;
  }

  ghost predicate AllDynamic(nodes: seq<Node>) {
    forall q {:trigger nodes[q]} | 0 <= q < |nodes| :: nodes[q].times.dynamic
  }

  /** The least step size that anybody announced for the step at T. */
  ghost predicate LeastAt(nodes: seq<Node>, T: int, len: int) {
    && (forall q | 0 <= q < |nodes| :: NoneShorter(Announced(nodes[q].log), T, len))
    && exists q, h :: SizeAt(nodes, T, len, q, h)
  }

  ghost predicate NoneShorter(a: seq<Task>, T: int, len: int) {
    forall h | 0 <= h < |a| && a[h].timePoint == T :: len <= a[h].duration
  }

  ghost predicate SizeAt(nodes: seq<Node>, T: int, len: int, q: nat, h: nat) {
    q < |nodes| && h < |Announced(nodes[q].log)| && Announced(nodes[q].log)[h] == Task(T, len)
  }

  /** If all participants are dynamic they step together, and each step lasts for the least of the step
      sizes that all of them have announced for it, however these change. */
  lemma CommonStepIsLeast(c: Setup, ss: seq<State>, acts: seq<Action>, k: nat, p: nat)
    requires Run(c, ss, acts) && k < |ss| && p < |ss[k].nodes| && Adapts(ss[k].nodes[p].times)
    requires AllDynamic(ss[k].nodes)
    ensures var nodes, t := ss[k].nodes, ss[k].nodes[p].times;
            && (forall q | 0 <= q < |nodes| :: Announces(nodes[q], t.current.timePoint))
            && LeastAt(nodes, t.current.timePoint, t.next.timePoint - t.current.timePoint)
  {
    var nodes := ss[k].nodes;
    RunAligns(c, ss, acts, k);
    RunCovers(c, ss, acts, k);
    var T, to := nodes[p].times.current.timePoint, nodes[p].times.next.timePoint;
    forall q | 0 <= q < |nodes|
      ensures Announces(nodes[q], T) && NoneShorter(Announced(nodes[q].log), T, to - T)
    {
      AllAnnounce(nodes, p, q);
      assert NoneJumped(Announced(nodes[q].log), T, to);
      forall h | 0 <= h < |Announced(nodes[q].log)| && Announced(nodes[q].log)[h].timePoint == T
        ensures to - T <= Announced(nodes[q].log)[h].duration
      {
        assert NotJumped(Announced(nodes[q].log)[h], T, to);
      }
    }
    var q, h := SourceMeans(nodes, T, to);
    assert Announces(nodes[q], T);
    assert SizeAt(nodes, T, to - T, q, h);
  }

  // ----- coarse runs -----

  /** For every dynamic participant q somebody who keeps its own step size, and a bound: that step size
      never exceeds the bound, and q's own never falls below it. */
  datatype Leads = Leads(who: seq<nat>, bound: seq<int>)

  ghost predicate Dynamic(c: Setup, q: nat)
    requires Valid(c) && q < |c.period|
  {
    DynamicEnabled(c.mode, q)
  }

  ghost predicate Coarser(c: Setup, leads: Leads) {
    && Valid(c) && |leads.who| == |leads.bound| == |c.period|
    && forall q {:trigger Dynamic(c, q)} | 0 <= q < |c.period| && Dynamic(c, q) ::
         Leading(c, leads, q, leads.who[q])
  }

  ghost predicate Leading(c: Setup, leads: Leads, q: nat, o: nat)
    requires Valid(c) && q < |c.period| == |leads.bound|
  {
    o < |c.period| && !DynamicEnabled(c.mode, o) && c.period[o] <= leads.bound[q] <= c.period[q]
  }

  /** Steps are resized within the bounds only. */
  ghost predicate Respects(c: Setup, leads: Leads, a: Action)
    requires Coarser(c, leads)
  {
    a.Resize? && a.who < |c.period| ==>
      && (Dynamic(c, a.who) ==> a.duration >= leads.bound[a.who])
      && forall q | 0 <= q < |c.period| && leads.who[q] == a.who :: Dynamic(c, q) ==> a.duration <= leads.bound[q]
  }

  ghost predicate CoarseRun(c: Setup, leads: Leads, acts: seq<Action>) {
    Coarser(c, leads) && forall k | 0 <= k < |acts| :: Respects(c, leads, acts[k])
  }

  ghost predicate AtLeast(nd: Node, bound: int) {
    && nd.times.next.duration >= bound
    && forall k | 0 <= k < |Announced(nd.log)| :: Announced(nd.log)[k].duration >= bound
  }

  ghost predicate AtMost(nd: Node, bound: int) {
    && nd.times.next.duration <= bound
    && forall k | 0 <= k < |Announced(nd.log)| :: Announced(nd.log)[k].duration <= bound
  }

  ghost predicate ModeInv(c: Setup, nodes: seq<Node>) {
    && Valid(c) && |nodes| == |c.period|
    && forall i {:trigger nodes[i]} | 0 <= i < |nodes| :: nodes[i].times.dynamic == DynamicEnabled(c.mode, i)
  }

  ghost predicate Bounded(c: Setup, leads: Leads, nodes: seq<Node>, q: nat)
    requires Coarser(c, leads) && q < |nodes| == |c.period|
  {
    Dynamic(c, q) ==> AtLeast(nodes[q], leads.bound[q]) && AtMost(nodes[leads.who[q]], leads.bound[q])
  }

  ghost predicate SizeInv(c: Setup, leads: Leads, nodes: seq<Node>)
    requires Coarser(c, leads)
  {
    ModeInv(c, nodes) && forall q | 0 <= q < |nodes| :: Bounded(c, leads, nodes, q)
  }

  lemma DurationEffect(s: State, a: Action, i: nat)
    requires Inv(s) && Enabled(s, a) && In(s, i)
    ensures |Apply(s, a).nodes| == |s.nodes|
    ensures var nd, nd' := s.nodes[i], Apply(s, a).nodes[i];
            && nd'.times.dynamic == nd.times.dynamic
            && nd'.times.next.duration == (if a.Resize? && a.who == i then a.duration else nd.times.next.duration)
            && (Announced(nd'.log) == Announced(nd.log) || Announced(nd'.log) == Announced(nd.log) + [nd.times.next])
  {
    Effect(s, a, i);
  }

  lemma BoundsKept(c: Setup, leads: Leads, s: State, a: Action, q: nat)
    requires Inv(s) && Enabled(s, a) && Coarser(c, leads) && Respects(c, leads, a)
    requires q < |s.nodes| == |c.period|
    requires Bounded(c, leads, s.nodes, q)
    ensures |Apply(s, a).nodes| == |s.nodes| && Bounded(c, leads, Apply(s, a).nodes, q)
  {
    if Dynamic(c, q) {
      DurationEffect(s, a, q);
      DurationEffect(s, a, leads.who[q]);
    } else {
      DurationEffect(s, a, q);
    }
  }

  lemma StepKeepsSizes(c: Setup, leads: Leads, s: State, a: Action)
    requires Coarser(c, leads) && Inv(s) && SizeInv(c, leads, s.nodes) && Enabled(s, a) && Respects(c, leads, a)
    ensures SizeInv(c, leads, Apply(s, a).nodes)
  {
    var s' := Apply(s, a);
    forall i | 0 <= i < |s.nodes|
      ensures |s'.nodes| == |s.nodes| && s'.nodes[i].times.dynamic == DynamicEnabled(c.mode, i)
      ensures Bounded(c, leads, s'.nodes, i)
    {
      DurationEffect(s, a, i);
      BoundsKept(c, leads, s, a, i);
    }
  }

  lemma InitialSizes(c: Setup, leads: Leads)
    requires Coarser(c, leads)
    ensures SizeInv(c, leads, Initial(c).nodes)
  {
    var nodes := Initial(c).nodes;
    forall q | 0 <= q < |nodes| ensures Bounded(c, leads, nodes, q) {
      if Dynamic(c, q) {
        assert Leading(c, leads, q, leads.who[q]);
      }
    }
  }

  lemma {:induction false} RunSizes(c: Setup, leads: Leads, ss: seq<State>, acts: seq<Action>, k: nat)
    requires Run(c, ss, acts) && CoarseRun(c, leads, acts) && k < |ss|
    ensures SizeInv(c, leads, ss[k].nodes)
    decreases k
  {
    if k == 0 {
      InitialSizes(c, leads);
    } else {
      RunSizes(c, leads, ss, acts, k - 1);
      RunInv(c, ss, acts, k - 1);
      assert Step(ss[k - 1], acts[k - 1], ss[k]) && Respects(c, leads, acts[k - 1]);
      StepKeepsSizes(c, leads, ss[k - 1], acts[k - 1]);
    }
  }

  // ----- everything stops where somebody with its own step size stops -----

  /** A step announced begins or ends at t. */
  ghost predicate Stops(nd: Node, t: int) {
    exists k | 0 <= k < |Announced(nd.log)| :: BeginsOrEnds(Announced(nd.log)[k], t)
  }

  predicate BeginsOrEnds(x: Task, t: int) { x.timePoint == t || x.timePoint + x.duration == t }

  ghost predicate OwnStop(nodes: seq<Node>, t: int) {
    t == 0 || exists o | 0 <= o < |nodes| :: !nodes[o].times.dynamic && Stops(nodes[o], t)
  }

  ghost predicate AllOwnStops(nodes: seq<Node>, nd: Node) {
    && OwnStop(nodes, nd.times.next.timePoint)
    && forall k | 0 <= k < |Announced(nd.log)| :: OwnStop(nodes, Announced(nd.log)[k].timePoint)
  }

  ghost predicate UnionInv(nodes: seq<Node>) {
    forall p {:trigger nodes[p]} | 0 <= p < |nodes| && nodes[p].times.dynamic :: AllOwnStops(nodes, nodes[p])
  }

  /** A step at least as long as o's own steps ends exactly where one of those begins or ends. */
  lemma EndsWithOwn(nodes: seq<Node>, p: nat, T: int, len: int, o: nat)
    requires Beginning(nodes, p, T, len) && nodes[p].times.dynamic
    requires o < |nodes| && o != p && !nodes[o].times.dynamic && AtMost(nodes[o], len)
    ensures Stops(nodes[o], T + len)
  {
    var a := Announced(nodes[o].log);
    var m := KnownIndex(nodes, p, T, len, o);
    assert NodeSound(nodes[o]);
    if a[m].timePoint == T {
      assert BeginsOrEnds(a[m], T + len);
    } else {
      if m > 0 {
        OneAhead(nodes, p, T, len, o, m - 1);
        assert Follows(a[m - 1], a[m].timePoint, false);
      }
      assert BeginsOrEnds(a[m], T + len);
    }
  }

  /** The reason for the step is the length of q's own dynamic step at the same point. */
  ghost predicate AtOwnStep(nodes: seq<Node>, T: int, q: nat, k: nat) {
    q < |nodes| && k < |Announced(nodes[q].log)|
    && nodes[q].times.dynamic && Announced(nodes[q].log)[k].timePoint == T
  }

  lemma SourceStops(nodes: seq<Node>, T: int, to: int, q: nat, k: nat)
    requires Source(nodes, T, to, q, k) && UnionInv(nodes) && !AtOwnStep(nodes, T, q, k)
    ensures OwnStop(nodes, to)
  {
    var a := Announced(nodes[q].log);
    if nodes[q].times.dynamic {
      assert AllOwnStops(nodes, nodes[q]);
    } else {
      assert BeginsOrEnds(a[k], to);
    }
  }

  lemma OwnStepStops(c: Setup, leads: Leads, nodes: seq<Node>, p: nat, T: int, len: int, q: nat, k: nat)
    requires Beginning(nodes, p, T, len) && nodes[p].times.dynamic && Coarser(c, leads) && SizeInv(c, leads, nodes)
    requires Source(nodes, T, T + len, q, k) && AtOwnStep(nodes, T, q, k)
    ensures OwnStop(nodes, T + len)
  {
    assert Dynamic(c, q) && Bounded(c, leads, nodes, q);
    var o := leads.who[q];
    assert Leading(c, leads, q, o);
    AtMostGrows(nodes[o], leads.bound[q], len);
    EndsWithOwn(nodes, p, T, len, o);
  }

  lemma AtMostGrows(nd: Node, a: int, b: int)
    requires AtMost(nd, a) && a <= b
    ensures AtMost(nd, b)
  {}

  lemma NextIsOwnStop(c: Setup, leads: Leads, nodes: seq<Node>, p: nat, T: int, len: int)
    requires Beginning(nodes, p, T, len) && nodes[p].times.dynamic
    requires Coarser(c, leads) && SizeInv(c, leads, nodes) && UnionInv(nodes)
    ensures OwnStop(nodes, T + len)
  {
    HasReason(nodes, p, T, len);
    var q, k := SourceMeans(nodes, T, T + len);
    ReasonIsOwnStop(c, leads, nodes, p, T, len, q, k);
  }

  lemma ReasonIsOwnStop(c: Setup, leads: Leads, nodes: seq<Node>, p: nat, T: int, len: int, q: nat, k: nat)
    requires Beginning(nodes, p, T, len) && nodes[p].times.dynamic && Source(nodes, T, T + len, q, k)
    requires Coarser(c, leads) && SizeInv(c, leads, nodes) && UnionInv(nodes)
    ensures OwnStop(nodes, T + len)
  {
    if AtOwnStep(nodes, T, q, k) {
      OwnStepStops(c, leads, nodes, p, T, len, q, k);
    } else {
      SourceStops(nodes, T, T + len, q, k);
    }
  }

  lemma StopsKept(nd: Node, nd': Node, t: int)
    requires Announced(nd.log) <= Announced(nd'.log) && Stops(nd, t)
    ensures Stops(nd', t)
  {
    var k :| 0 <= k < |Announced(nd.log)| && BeginsOrEnds(Announced(nd.log)[k], t);
    assert BeginsOrEnds(Announced(nd'.log)[k], t);
  }

  lemma OwnStopKept(s: State, a: Action, t: int)
    requires Inv(s) && Enabled(s, a) && OwnStop(s.nodes, t)
    ensures OwnStop(Apply(s, a).nodes, t)
  {
    if t != 0 {
      var o :| 0 <= o < |s.nodes| && !s.nodes[o].times.dynamic && Stops(s.nodes[o], t);
      DurationEffect(s, a, o);
      StopsKept(s.nodes[o], Apply(s, a).nodes[o], t);
    }
  }

  lemma TimelineStops(s: State, a: Action, p: nat)
    requires Inv(s) && Enabled(s, a) && p < |s.nodes| && AllOwnStops(s.nodes, s.nodes[p])
    requires |Apply(s, a).nodes| == |s.nodes|
    requires OwnStop(Apply(s, a).nodes, Apply(s, a).nodes[p].times.next.timePoint)
    ensures AllOwnStops(Apply(s, a).nodes, Apply(s, a).nodes[p])
  {
    var nd, nd', nodes' := s.nodes[p], Apply(s, a).nodes[p], Apply(s, a).nodes;
    DurationEffect(s, a, p);
    forall k | 0 <= k < |Announced(nd'.log)| ensures OwnStop(nodes', Announced(nd'.log)[k].timePoint) {
      if k < |Announced(nd.log)| {
        OwnStopKept(s, a, Announced(nd.log)[k].timePoint);
      } else {
        OwnStopKept(s, a, nd.times.next.timePoint);
      }
    }
  }

  lemma NextStops(c: Setup, leads: Leads, s: State, a: Action, p: nat)
    requires Coarser(c, leads) && Inv(s) && AlignInv(s.nodes) && SizeInv(c, leads, s.nodes) && UnionInv(s.nodes)
    requires Enabled(s, a) && p < |s.nodes| && s.nodes[p].times.dynamic
    ensures |Apply(s, a).nodes| == |s.nodes|
    ensures OwnStop(Apply(s, a).nodes, Apply(s, a).nodes[p].times.next.timePoint)
  {
    Effect(s, a, p);
    var nd, nd' := s.nodes[p], Apply(s, a).nodes[p];
    assert AllOwnStops(s.nodes, nd);
    if Beginning'(nd, nd') {
      NextIsOwnStop(c, leads, s.nodes, p, nd.times.next.timePoint, LengthOf(nd.times));
    }
    OwnStopKept(s, a, nd'.times.next.timePoint);
  }

  lemma StepKeepsUnion(c: Setup, leads: Leads, s: State, a: Action)
    requires Coarser(c, leads) && Inv(s) && AlignInv(s.nodes) && SizeInv(c, leads, s.nodes) && UnionInv(s.nodes)
    requires Enabled(s, a)
    ensures UnionInv(Apply(s, a).nodes)
  {
    var s' := Apply(s, a);
    forall p | 0 <= p < |s'.nodes| && s'.nodes[p].times.dynamic ensures AllOwnStops(s'.nodes, s'.nodes[p]) {
      DurationEffect(s, a, p);
      assert AllOwnStops(s.nodes, s.nodes[p]);
      NextStops(c, leads, s, a, p);
      TimelineStops(s, a, p);
    }
  }

  lemma {:induction false} RunUnion(c: Setup, leads: Leads, ss: seq<State>, acts: seq<Action>, k: nat)
    requires Run(c, ss, acts) && CoarseRun(c, leads, acts) && k < |ss|
    ensures UnionInv(ss[k].nodes)
    decreases k
  {
    if k == 0 {
      assert forall p | 0 <= p < |ss[0].nodes| :: ss[0].nodes[p] == InitialNode(c, p);
    } else {
      RunUnion(c, leads, ss, acts, k - 1);
      RunAligns(c, ss, acts, k - 1);
      RunSizes(c, leads, ss, acts, k - 1);
      assert Step(ss[k - 1], acts[k - 1], ss[k]);
      StepKeepsUnion(c, leads, ss[k - 1], acts[k - 1]);
    }
  }

  // ----- the union -----

  /** Somebody who keeps its own step size steps at t, or is about to. */
  ghost predicate OwnAnnounced(nodes: seq<Node>, t: int) {
    exists o | 0 <= o < |nodes| :: !nodes[o].times.dynamic && Announces(nodes[o], t)
  }

  /** Whoever has passed t knows that a step of o that begins or ends at t was announced as the begin of
      one. */
  lemma EndIsAnnounced(nodes: seq<Node>, p: nat, o: nat, t: int)
    requires NodesOk(nodes) && p < |nodes| && o < |nodes| && p != o && !nodes[o].times.dynamic
    requires 0 <= t <= nodes[p].times.current.timePoint && (t == 0 || Stops(nodes[o], t))
    ensures Announces(nodes[o], t)
  {
    KnownAnnounced(nodes, p, o);
    var a := Announced(nodes[o].log);
    assert NodeSound(nodes[o]);
    assert Last(a).timePoint >= t && a != [];
    if t == 0 {
      assert a[0].timePoint == 0;
    } else {
      var k :| 0 <= k < |a| && BeginsOrEnds(a[k], t);
      if a[k].timePoint != t && k + 1 < |a| {
        assert Follows(a[k], a[k + 1].timePoint, false);
      }
    }
  }

  /** In every coarse run, with step sizes changing as they may, a dynamic participant steps exactly
      where somebody with its own step size does. */
  lemma DynamicFollowsOwn(c: Setup, leads: Leads, ss: seq<State>, acts: seq<Action>, k: nat, p: nat, t: int)
    requires Run(c, ss, acts) && CoarseRun(c, leads, acts) && k < |ss|
    requires p < |ss[k].nodes| && ss[k].nodes[p].times.dynamic
    requires 0 <= t <= ss[k].nodes[p].times.current.timePoint
    ensures Stepped(ss[k].nodes[p], t) <==> OwnAnnounced(ss[k].nodes, t)
  {
    var nodes := ss[k].nodes;
    RunCovers(c, ss, acts, k);
    RunSizes(c, leads, ss, acts, k);
    RunUnion(c, leads, ss, acts, k);
    if Stepped(nodes[p], t) {
      assert AllOwnStops(nodes, nodes[p]);
      var o := OwnerOf(c, leads, nodes, p, t);
      EndIsAnnounced(nodes, p, o, t);
    }
    if OwnAnnounced(nodes, t) {
      var o :| 0 <= o < |nodes| && !nodes[o].times.dynamic && Announces(nodes[o], t);
      assert Covers(nodes[p], nodes[o]);
    }
  }

  lemma OwnerOf(c: Setup, leads: Leads, nodes: seq<Node>, p: nat, t: int) returns (o: nat)
    requires Coarser(c, leads) && SizeInv(c, leads, nodes) && p < |nodes| && nodes[p].times.dynamic
    requires OwnStop(nodes, t)
    ensures o < |nodes| && o != p && !nodes[o].times.dynamic && (t == 0 || Stops(nodes[o], t))
  {
    if t == 0 {
      assert Dynamic(c, p) && Leading(c, leads, p, leads.who[p]);
      o := leads.who[p];
    } else {
      o :| 0 <= o < |nodes| && !nodes[o].times.dynamic && Stops(nodes[o], t);
    }
  }

  // ----- constant step sizes -----

  /** The time points of a dynamic participant contain every multiple of every own step size ... */
  lemma DynamicContainsUnion(c: Setup, ss: seq<State>, acts: seq<Action>, k: nat, p: nat, o: nat, t: int)
    requires Run(c, ss, acts) && Constant(acts) && k < |ss|
    requires p < |c.period| && DynamicEnabled(c.mode, p)
    requires o < |c.period| && !DynamicEnabled(c.mode, o) && t % c.period[o] == 0
    requires |ss[k].nodes| == |c.period| && 0 <= t <= ss[k].nodes[p].times.current.timePoint
    ensures Stepped(ss[k].nodes[p], t)
  {
    RunPeriodic(c, ss, acts, k);
    var nodes := ss[k].nodes;
    var d := c.period[o];
    KnownAnnounced(nodes, p, o);
    var a := Announced(nodes[o].log);
    OwnSteps(nodes[o], d, |a| - 1);
    var h := FirstNotBefore(t, d, |a| - 1);
    OwnSteps(nodes[o], d, h);
    MultipleIsModulo(t, d);
    NoMultipleBetween(t, d, h);
    assert Covers(nodes[p], nodes[o]);
  }

  /** t is a multiple of some own step size. */
  ghost predicate InUnion(c: Setup, t: int)
    requires Valid(c)
  {
    exists o | 0 <= o < |c.period| :: !DynamicEnabled(c.mode, o) && t % c.period[o] == 0
  }

  /** Every dynamic participant's own step size is at least that of some non-dynamic one. */
  ghost predicate Coarse(c: Setup)
    requires Valid(c)
  {
    forall q {:trigger Dynamic(c, q)} | 0 <= q < |c.period| && Dynamic(c, q) ::
      exists o | 0 <= o < |c.period| :: !DynamicEnabled(c.mode, o) && c.period[o] <= c.period[q]
  }

  /** Somebody who keeps its own step size and is no slower than q, if q is dynamic. */
  ghost function LeadOf(c: Setup, q: nat): (o: nat)
    requires Valid(c) && Coarse(c) && q < |c.period|
    ensures Dynamic(c, q) ==> o < |c.period| && !DynamicEnabled(c.mode, o) && c.period[o] <= c.period[q]
  {
    if Dynamic(c, q) then
      var o :| 0 <= o < |c.period| && !DynamicEnabled(c.mode, o) && c.period[o] <= c.period[q];
      o
    else 0
  }

  lemma CoarseIsCoarser(c: Setup, acts: seq<Action>) returns (leads: Leads)
    requires Valid(c) && Coarse(c) && Constant(acts)
    ensures CoarseRun(c, leads, acts)
  {
    leads := Leads(seq(|c.period|, q requires 0 <= q < |c.period| => LeadOf(c, q)), c.period);
    forall q | 0 <= q < |c.period| && Dynamic(c, q) ensures Leading(c, leads, q, leads.who[q]) {
      assert leads.who[q] == LeadOf(c, q);
    }
  }

  lemma AnnouncedMultiple(c: Setup, nodes: seq<Node>, t: int)
    requires NodesOk(nodes) && PeriodInv(c, nodes) && OwnAnnounced(nodes, t)
    ensures InUnion(c, t)
  {
    var o :| 0 <= o < |nodes| && !nodes[o].times.dynamic && Announces(nodes[o], t);
    var k :| 0 <= k < |Announced(nodes[o].log)| && Announced(nodes[o].log)[k].timePoint == t;
    assert NodeSound(nodes[o]);
    OwnSteps(nodes[o], c.period[o], k);
    assert IsNth(k, c.period[o], t);
    MultipleIsModulo(t, c.period[o]);
  }

  /** ... and nothing else if it is coarse: they are exactly the union of those multiples. */
  lemma DynamicIsUnion(c: Setup, ss: seq<State>, acts: seq<Action>, k: nat, p: nat, t: int)
    requires Run(c, ss, acts) && Constant(acts) && k < |ss| && Coarse(c)
    requires p < |c.period| && DynamicEnabled(c.mode, p)
    requires |ss[k].nodes| == |c.period| && 0 <= t <= ss[k].nodes[p].times.current.timePoint
    ensures Stepped(ss[k].nodes[p], t) <==> InUnion(c, t)
  {
    if InUnion(c, t) {
      var o :| 0 <= o < |c.period| && !DynamicEnabled(c.mode, o) && t % c.period[o] == 0;
      DynamicContainsUnion(c, ss, acts, k, p, o, t);
    } else if Stepped(ss[k].nodes[p], t) {
      var leads := CoarseIsCoarser(c, acts);
      RunPeriodic(c, ss, acts, k);
      DynamicFollowsOwn(c, leads, ss, acts, k, p, t);
      AnnouncedMultiple(c, ss[k].nodes, t);
    }
  }
}
