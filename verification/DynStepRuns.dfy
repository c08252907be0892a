/** The step-size tests with several participants: what a participant records that opts out of dynamic
    stepping and changes its own step size, and what those record that follow it. */
module DynStepRuns {
  import opened TimeModel
  import opened TimeSync
  import opened TimeSafety
  import opened TimeAlign
  import opened TimePoints
  import opened TimeUnion
  import Dyn = DynStepSizes

  /** The handler of participant q: in a step at one of the given time points, and only there, it
      registers the step size given for it, before it returns. */
  ghost predicate Changes(s: State, a: Action, q: nat, changes: map<int, int>)
    requires In(s, q)
  {
    var nd := s.nodes[q];
    && (a.Resize? && a.who == q ==> nd.times.current.timePoint in changes
                                    && a.duration == changes[nd.times.current.timePoint])
    && (a == Complete(q) && nd.executing && nd.times.current.timePoint in changes ==>
          nd.times.next.duration == changes[nd.times.current.timePoint])
  }

  ghost predicate ChangingRun(c: Setup, ss: seq<State>, acts: seq<Action>, q: nat, changes: map<int, int>) {
    && Run(c, ss, acts) && q < |c.period| && !DynamicEnabled(c.mode, q) && Dyn.ValidChanges(c.period[q], changes)
    && forall k {:trigger acts[k]} | 0 <= k < |acts| :: q < |ss[k].nodes| && Changes(ss[k], acts[k], q, changes)
  }

  /** Each announced step is followed by the one that starts where it ends, with the size then in force. */
  ghost predicate Linked(a: seq<Task>, changes: map<int, int>) {
    forall k | 0 < k < |a| :: IsAfter(a[k - 1], a[k], changes)
  }

  predicate IsAfter(x: Task, y: Task, changes: map<int, int>) {
    y == Task(x.timePoint + x.duration, Dyn.SizeAfter(x.timePoint, x.duration, changes))
  }

  ghost predicate RecordOk(nd: Node, size: int, changes: map<int, int>) {
    var a, t := Announced(nd.log), nd.times;
    && !t.dynamic
    && (if a == [] then t.next.duration == size else a[0] == Task(0, size))
    && Linked(a, changes)
    && (nd.executing && a != [] ==>
          || t.next.duration == a[|a| - 1].duration
          || (t.current.timePoint in changes && t.next.duration == changes[t.current.timePoint]))
  }

  lemma LinkedAppend(a: seq<Task>, x: Task, changes: map<int, int>)
    requires Linked(a, changes) && (a != [] ==> IsAfter(a[|a| - 1], x, changes))
    ensures Linked(a + [x], changes)
  {
    var b := a + [x];
    forall k | 0 < k < |b| ensures IsAfter(b[k - 1], b[k], changes) {
      if k < |a| {
        assert IsAfter(a[k - 1], a[k], changes);
      }
    }
  }

  lemma RecordKept(s: State, a: Action, q: nat, size: int, changes: map<int, int>)
    requires Inv(s) && Enabled(s, a) && In(s, q) && Changes(s, a, q, changes)
    requires RecordOk(s.nodes[q], size, changes)
    ensures |Apply(s, a).nodes| == |s.nodes| && RecordOk(Apply(s, a).nodes[q], size, changes)
  {
    var nd, nd' := s.nodes[q], Apply(s, a).nodes[q];
    assert NodeSound(nd);
    Effect(s, a, q);
    if Announcing(nd, nd') {
      AnnouncingKeepsRecord(s, a, q, size, changes);
    }
  }

  lemma AnnouncingKeepsRecord(s: State, a: Action, q: nat, size: int, changes: map<int, int>)
    requires Inv(s) && Enabled(s, a) && In(s, q) && Changes(s, a, q, changes)
    requires RecordOk(s.nodes[q], size, changes) && |Apply(s, a).nodes| == |s.nodes|
    requires Announcing(s.nodes[q], Apply(s, a).nodes[q])
    ensures RecordOk(Apply(s, a).nodes[q], size, changes)
  {
    var nd := s.nodes[q];
    var old' := Announced(nd.log);
    assert NodeSound(nd);
    if nd.executing {
      assert a == Complete(q);
      assert Follows(old'[|old'| - 1], nd.times.next.timePoint, false);
    }
    LinkedAppend(old', nd.times.next, changes);
  }

  lemma {:induction false} RunRecords(c: Setup, ss: seq<State>, acts: seq<Action>, q: nat, changes: map<int, int>,
                                      k: nat)
    requires ChangingRun(c, ss, acts, q, changes) && k < |ss|
    ensures Inv(ss[k]) && q < |ss[k].nodes| && RecordOk(ss[k].nodes[q], c.period[q], changes)
    decreases k
  {
    RunInv(c, ss, acts, k);
    if k == 0 {
    } else {
      RunRecords(c, ss, acts, q, changes, k - 1);
      assert Step(ss[k - 1], acts[k - 1], ss[k]) && Changes(ss[k - 1], acts[k - 1], q, changes);
      RecordKept(ss[k - 1], acts[k - 1], q, c.period[q], changes);
    }
  }

  // ----- the record -----

  /** Linked steps, from the first one on, are what is recorded. */
  lemma {:induction false} LinkedIsRecorded(a: seq<Task>, changes: map<int, int>, limit: int, k: nat)
    requires k < |a| && Linked(a, changes) && Dyn.ValidChanges(a[0].duration, changes)
    ensures var r := Dyn.Recorded(a[0].timePoint, a[0].duration, changes, limit);
            && (k < |r| <==> a[k].timePoint < limit)
            && (k < |r| ==> r[k] == Dyn.Step(a[k].timePoint, a[k].duration))
    ensures a[k].timePoint >= a[0].timePoint
    decreases k
  {
    var r := Dyn.Recorded(a[0].timePoint, a[0].duration, changes, limit);
    if k == 0 {
    } else {
      assert IsAfter(a[0], a[1], changes);
      assert Linked(a[1..], changes) by {
        forall h | 0 < h < |a[1..]| ensures IsAfter(a[1..][h - 1], a[1..][h], changes) {
          assert IsAfter(a[h], a[h + 1], changes);
        }
      }
      LinkedIsRecorded(a[1..], changes, limit, k - 1);
    }
  }

  ghost predicate FitsRecord(a: seq<Task>, size: int, changes: map<int, int>, limit: int, h: nat)
    requires h < |a| && Dyn.ValidChanges(size, changes)
  {
    var r := Dyn.Recorded(0, size, changes, limit);
    (h < |r| <==> a[h].timePoint < limit) && (h < |r| ==> r[h] == Dyn.Step(a[h].timePoint, a[h].duration))
  }

  lemma RecordEnds(nd: Node, size: int, changes: map<int, int>, limit: int)
    requires NodeSound(nd) && RecordOk(nd, size, changes) && Dyn.ValidChanges(size, changes)
    requires limit > 0 && nd.times.next.timePoint >= limit
    ensures |Dyn.Recorded(0, size, changes, limit)| <= Steps(nd)
  {
    var a := Announced(nd.log);
    if nd.executing {
      var last := a[|a| - 1];
      assert Follows(last, nd.times.next.timePoint, false);
      var x := Task(nd.times.next.timePoint, Dyn.SizeAfter(last.timePoint, last.duration, changes));
      LinkedAppend(a, x, changes);
      LinkedIsRecorded(a + [x], changes, limit, |a|);
    } else {
      LinkedIsRecorded(a, changes, limit, |a| - 1);
    }
  }

  /** In every run with any other participants, step k of q is the k-th recorded one as long as it begins
      before the limit, and when q wants a step at the limit or later, the record is complete. */
  lemma StepsAsRecorded(c: Setup, ss: seq<State>, acts: seq<Action>, q: nat, changes: map<int, int>, k: nat, limit: int)
    requires ChangingRun(c, ss, acts, q, changes) && k < |ss| && q < |ss[k].nodes| && limit > 0
    ensures var nd := ss[k].nodes[q];
            var a, r := Announced(nd.log), Dyn.Recorded(0, c.period[q], changes, limit);
            && Steps(nd) <= |a|
            && (forall h | 0 <= h < Steps(nd) :: FitsRecord(a, c.period[q], changes, limit, h))
            && (nd.times.next.timePoint >= limit ==> |r| <= Steps(nd))
            && (nd.executing ==> a != [] && nd.times.current == a[|a| - 1])
  {
    RunRecords(c, ss, acts, q, changes, k);
    var nd := ss[k].nodes[q];
    var a := Announced(nd.log);
    assert NodeSound(nd);
    forall h | 0 <= h < |a| ensures FitsRecord(a, c.period[q], changes, limit, h) {
      LinkedIsRecorded(a, changes, limit, h);
    }
    if nd.times.next.timePoint >= limit {
      RecordEnds(nd, c.period[q], changes, limit);
    }
  }

  // ----- those that follow -----

  lemma {:induction false} RecordAscends(size: int, changes: map<int, int>, limit: int, g: nat, h: nat)
    requires Dyn.ValidChanges(size, changes) && limit > 0
    requires g < h < |Dyn.Recorded(0, size, changes, limit)|
    ensures Dyn.Recorded(0, size, changes, limit)[g].now < Dyn.Recorded(0, size, changes, limit)[h].now
    decreases h
  {
    Dyn.StepsTile(0, size, changes, limit);
    if g == h - 1 {
    } else {
      RecordAscends(size, changes, limit, g, h - 1);
    }
  }

  /** Everybody else follows q, whose step size never exceeds theirs. */
  ghost predicate Following(c: Setup, leads: Leads, ss: seq<State>, acts: seq<Action>, q: nat, changes: map<int, int>) {
    && ChangingRun(c, ss, acts, q, changes) && CoarseRun(c, leads, acts)
    && forall o {:trigger Dynamic(c, o)} | 0 <= o < |c.period| && o != q :: Dynamic(c, o)
  }

  lemma OnlyOwn(c: Setup, leads: Leads, ss: seq<State>, acts: seq<Action>, q: nat, changes: map<int, int>, k: nat)
    requires Following(c, leads, ss, acts, q, changes) && k < |ss|
    ensures |ss[k].nodes| == |c.period|
    ensures forall o {:trigger ss[k].nodes[o]} | 0 <= o < |c.period| :: ss[k].nodes[o].times.dynamic <==> o != q
  {
    RunSizes(c, leads, ss, acts, k);
    forall o | 0 <= o < |c.period| ensures ss[k].nodes[o].times.dynamic <==> o != q {
      assert o != q ==> Dynamic(c, o);
    }
  }

  ghost predicate InRecord(size: int, changes: map<int, int>, limit: int, t: int)
    requires Dyn.ValidChanges(size, changes)
  {
    exists h | 0 <= h < |Dyn.Recorded(0, size, changes, limit)| :: Dyn.Recorded(0, size, changes, limit)[h].now == t
  }

  /** Once somebody has passed t, q has announced all recorded steps up to t. */
  lemma AnnouncedIsRecorded(nodes: seq<Node>, p: nat, q: nat, size: int, changes: map<int, int>, limit: int, t: int)
    requires NodesOk(nodes) && p < |nodes| && q < |nodes| && p != q
    requires Dyn.ValidChanges(size, changes) && RecordOk(nodes[q], size, changes)
    requires 0 <= t <= nodes[p].times.current.timePoint && t < limit
    ensures Announces(nodes[q], t) <==> InRecord(size, changes, limit, t)
  {
    var a, r := Announced(nodes[q].log), Dyn.Recorded(0, size, changes, limit);
    KnownAnnounced(nodes, p, q);
    assert a != [] && a[|a| - 1].timePoint >= t;
    forall h | 0 <= h < |a| ensures FitsRecord(a, size, changes, limit, h) {
      LinkedIsRecorded(a, changes, limit, h);
    }
    if Announces(nodes[q], t) {
      var h :| 0 <= h < |a| && a[h].timePoint == t;
      assert FitsRecord(a, size, changes, limit, h);
      assert r[h].now == t;
    }
    if InRecord(size, changes, limit, t) {
      var h :| 0 <= h < |r| && r[h].now == t;
      if h >= |a| {
        assert FitsRecord(a, size, changes, limit, |a| - 1);
        RecordAscends(size, changes, limit, |a| - 1, h);
        assert false;
      }
      assert FitsRecord(a, size, changes, limit, h);
    }
  }

  /** The followers step exactly at the recorded time points. */
  lemma FollowersAsRecorded(c: Setup, leads: Leads, ss: seq<State>, acts: seq<Action>, q: nat, changes: map<int, int>,
                            k: nat, p: nat, limit: int, t: int)
    requires Following(c, leads, ss, acts, q, changes) && k < |ss| && p < |c.period| && p != q
    requires |ss[k].nodes| == |c.period| && 0 <= t <= ss[k].nodes[p].times.current.timePoint && t < limit
    ensures Stepped(ss[k].nodes[p], t) <==> InRecord(c.period[q], changes, limit, t)
  {
    var nodes := ss[k].nodes;
    OnlyOwn(c, leads, ss, acts, q, changes, k);
    RunRecords(c, ss, acts, q, changes, k);
    DynamicFollowsOwn(c, leads, ss, acts, k, p, t);
    assert OwnAnnounced(nodes, t) <==> Announces(nodes[q], t);
    AnnouncedIsRecorded(nodes, p, q, c.period[q], changes, limit, t);
  }

  /** A step that ends within q's step at the same point, where a step of q begins or ends, lasts as long
      as that step. */
  lemma SameEnd(nd: Node, h: nat, to: int)
    requires NodeSound(nd) && !nd.times.dynamic && h < |Announced(nd.log)| && Stops(nd, to)
    requires var x := Announced(nd.log)[h]; x.timePoint < to <= x.timePoint + x.duration
    ensures to == Announced(nd.log)[h].timePoint + Announced(nd.log)[h].duration
  {
    var a := Announced(nd.log);
    var g :| 0 <= g < |a| && BeginsOrEnds(a[g], to);
    if g < h {
      assert Follows(a[g], a[g + 1].timePoint, false);
      if g + 1 < h {
        ChainAscends(a, false, g + 1, h);
      }
    } else if g > h {
      assert Follows(a[h], a[h + 1].timePoint, false);
      if h + 1 < g {
        ChainAscends(a, false, h + 1, g);
      }
    }
  }

  lemma SteppedNow(nd: Node)
    requires NodeSound(nd) && nd.times.current.timePoint >= 0
    ensures Stepped(nd, nd.times.current.timePoint) && nd.times.current.timePoint < nd.times.next.timePoint
  {
    var a := Announced(nd.log);
    if nd.executing {
      assert a[|a| - 1].timePoint == nd.times.current.timePoint;
    } else {
      assert a[|a| - 2].timePoint == nd.times.current.timePoint;
      assert Follows(a[|a| - 2], a[|a| - 1].timePoint, nd.times.dynamic);
    }
  }

  /** A follower's step ends with the step of q that begins with it. */
  lemma EndsWithIt(nodes: seq<Node>, p: nat, q: nat) returns (h: nat)
    requires NodesOk(nodes) && AlignInv(nodes) && UnionInv(nodes) && p < |nodes| && q < |nodes|
    requires forall o {:trigger nodes[o]} | 0 <= o < |nodes| :: nodes[o].times.dynamic <==> o != q
    requires p != q && Adapts(nodes[p].times) && Announces(nodes[q], nodes[p].times.current.timePoint)
    ensures var t := nodes[p].times;
            && h < |Announced(nodes[q].log)|
            && Announced(nodes[q].log)[h] == Task(t.current.timePoint, t.next.timePoint - t.current.timePoint)
  {
    var T, to, a := nodes[p].times.current.timePoint, nodes[p].times.next.timePoint, Announced(nodes[q].log);
    SteppedNow(nodes[p]);
    h :| 0 <= h < |a| && a[h].timePoint == T;
    assert NoneJumped(a, T, to) && NotJumped(a[h], T, to);
    assert AllOwnStops(nodes, nodes[p]) && Stops(nodes[q], to);
    SameEnd(nodes[q], h, to);
  }

  /** The current step is recorded, with its length. */
  ghost predicate LastsAsRecorded(t: Times<nat>, size: int, changes: map<int, int>, limit: int)
    requires Dyn.ValidChanges(size, changes)
  {
    Dyn.Step(t.current.timePoint, t.next.timePoint - t.current.timePoint) in Dyn.Recorded(0, size, changes, limit)
  }

  lemma LinkedInRecord(a: seq<Task>, size: int, changes: map<int, int>, limit: int, h: nat)
    requires h < |a| && Linked(a, changes) && a[0] == Task(0, size) && Dyn.ValidChanges(size, changes)
    requires a[h].timePoint < limit
    ensures Dyn.Step(a[h].timePoint, a[h].duration) in Dyn.Recorded(0, size, changes, limit)
  {
    LinkedIsRecorded(a, changes, limit, h);
    assert Dyn.Recorded(0, size, changes, limit)[h] == Dyn.Step(a[h].timePoint, a[h].duration);
  }

  lemma FollowerInRecord(nodes: seq<Node>, p: nat, q: nat, size: int, changes: map<int, int>, limit: int)
    requires NodesOk(nodes) && AlignInv(nodes) && UnionInv(nodes) && p < |nodes| && q < |nodes|
    requires forall o {:trigger nodes[o]} | 0 <= o < |nodes| :: nodes[o].times.dynamic <==> o != q
    requires p != q && Adapts(nodes[p].times) && Announces(nodes[q], nodes[p].times.current.timePoint)
    requires RecordOk(nodes[q], size, changes) && Dyn.ValidChanges(size, changes)
    requires nodes[p].times.current.timePoint < limit
    ensures LastsAsRecorded(nodes[p].times, size, changes, limit)
  {
    var h := EndsWithIt(nodes, p, q);
    LinkedInRecord(Announced(nodes[q].log), size, changes, limit, h);
  }

  lemma FollowerFacts(c: Setup, leads: Leads, ss: seq<State>, acts: seq<Action>, q: nat, changes: map<int, int>, k: nat)
    requires Following(c, leads, ss, acts, q, changes) && k < |ss|
    ensures NodesOk(ss[k].nodes) && AlignInv(ss[k].nodes) && UnionInv(ss[k].nodes)
    ensures q < |ss[k].nodes| && RecordOk(ss[k].nodes[q], c.period[q], changes)
  {
    RunRecords(c, ss, acts, q, changes, k);
    RunAligns(c, ss, acts, k);
    RunUnion(c, leads, ss, acts, k);
  }

  /** q announces a step wherever a follower steps. */
  lemma HasAnnounced(c: Setup, leads: Leads, ss: seq<State>, acts: seq<Action>, q: nat, changes: map<int, int>,
                     k: nat, p: nat)
    requires Following(c, leads, ss, acts, q, changes) && k < |ss| && p < |c.period| && p != q
    requires |ss[k].nodes| == |c.period| && Adapts(ss[k].nodes[p].times)
    ensures NodesOk(ss[k].nodes) && AlignInv(ss[k].nodes) && UnionInv(ss[k].nodes)
    ensures RecordOk(ss[k].nodes[q], c.period[q], changes)
    ensures forall o {:trigger ss[k].nodes[o]} | 0 <= o < |c.period| :: ss[k].nodes[o].times.dynamic <==> o != q
    ensures Announces(ss[k].nodes[q], ss[k].nodes[p].times.current.timePoint)
  {
    OnlyOwn(c, leads, ss, acts, q, changes, k);
    FollowerFacts(c, leads, ss, acts, q, changes, k);
    SteppedNow(ss[k].nodes[p]);
    DynamicFollowsOwn(c, leads, ss, acts, k, p, ss[k].nodes[p].times.current.timePoint);
  }

  /** ... and their steps have the recorded lengths: they record what q records. */
  lemma FollowersLastAsRecorded(c: Setup, leads: Leads, ss: seq<State>, acts: seq<Action>, q: nat,
                                changes: map<int, int>, k: nat, p: nat, limit: int)
    requires Following(c, leads, ss, acts, q, changes) && k < |ss| && p < |c.period| && p != q
    requires |ss[k].nodes| == |c.period| && Adapts(ss[k].nodes[p].times)
    requires ss[k].nodes[p].times.current.timePoint < limit
    ensures LastsAsRecorded(ss[k].nodes[p].times, c.period[q], changes, limit)
  {
    HasAnnounced(c, leads, ss, acts, q, changes, k, p);
    FollowerInRecord(ss[k].nodes, p, q, c.period[q], changes, limit);
  }
}
