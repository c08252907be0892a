/** Dynamic simulation steps. A participant that has them enabled never passes a point at which any
    other participant steps, and stops only where some participant's step begins or ends. */
module TimeAlign {
  import opened TimeModel
  import opened TimeSync
  import opened TimeSafety

  /** A step over [from, to] does not jump over the begin of the step announced as `x`, nor over its
      end if both begin together. */
  predicate NotJumped(x: Task, from: int, to: int) {
    && (x.timePoint == from ==> to <= from + x.duration)
    && (x.timePoint > from ==> to <= x.timePoint)
  }

  ghost predicate NoneJumped(a: seq<Task>, from: int, to: int) {
    forall k | 0 <= k < |a| :: NotJumped(a[k], from, to)
  }

  ghost predicate NoStepAt(a: seq<Task>, t: int) {
    forall k | 0 <= k < |a| :: a[k].timePoint != t
  }

  /** Participant q is the reason for a step over [from, to]: `to` is where q's own step size ends
      its step at `from`, or where q's next step begins, q having none at `from`. */
  ghost predicate Source(nodes: seq<Node>, from: int, to: int, q: nat, k: nat) {
    && q < |nodes|
    && var a := Announced(nodes[q].log);
    && k < |a|
    && (|| (a[k].timePoint == from && to == from + a[k].duration)
        || (a[k].timePoint > from && to == a[k].timePoint && NoStepAt(a, from)))
  }

  ghost predicate HasSource(nodes: seq<Node>, from: int, to: int) {
    exists q, k :: Source(nodes, from, to, q, k)
  }

  ghost predicate Aligned(nodes: seq<Node>, from: int, to: int) {
    && HasSource(nodes, from, to)
    && forall q | 0 <= q < |nodes| :: NoneJumped(Announced(nodes[q].log), from, to)
  }

  /** A participant with dynamic steps that has begun at least one of them. */
  predicate Adapts(t: Times<nat>) { t.dynamic && t.current.timePoint >= 0 }

  ghost predicate AlignInv(nodes: seq<Node>) {
    forall p | 0 <= p < |nodes| && Adapts(nodes[p].times) ::
      Aligned(nodes, nodes[p].times.current.timePoint, nodes[p].times.next.timePoint)
  }

  lemma SourceMeans(nodes: seq<Node>, from: int, to: int) returns (q: nat, k: nat)
    requires HasSource(nodes, from, to)
    ensures Source(nodes, from, to, q, k)
  {
    q, k :| Source(nodes, from, to, q, k);
  }

  // ----- actions that announce nothing and begin nothing -----

  ghost predicate SameTimeline(nd: Node, nd': Node) {
    && Announced(nd.log) == Announced(nd'.log)
    && nd.times.dynamic == nd'.times.dynamic
    && nd.times.current == nd'.times.current
    && nd.times.next.timePoint == nd'.times.next.timePoint
  }

  lemma QuietKeepsAlign(nodes: seq<Node>, i: nat, nd: Node)
    requires i < |nodes| && AlignInv(nodes) && SameTimeline(nodes[i], nd)
    ensures AlignInv(nodes[i := nd])
  {
    var nodes' := nodes[i := nd];
    forall p | 0 <= p < |nodes'| && Adapts(nodes'[p].times)
      ensures Aligned(nodes', nodes'[p].times.current.timePoint, nodes'[p].times.next.timePoint)
    {
      var from, to := nodes[p].times.current.timePoint, nodes[p].times.next.timePoint;
      var q, k := SourceMeans(nodes, from, to);
      assert Source(nodes', from, to, q, k);
      forall q | 0 <= q < |nodes'| ensures NoneJumped(Announced(nodes'[q].log), from, to) {
        assert NoneJumped(Announced(nodes[q].log), from, to);
      }
    }
  }

  // ----- announcing -----

  /** A new announcement lies beyond every adapting participant's current step. */
  lemma AnnouncementAhead(nodes: seq<Node>, p: nat, q: nat)
    requires NodesOk(nodes) && AlignInv(nodes) && p < |nodes| && q < |nodes|
    requires Adapts(nodes[p].times) && (nodes[q].executing || !nodes[q].started)
    ensures nodes[q].times.next.timePoint > nodes[p].times.current.timePoint
    ensures nodes[q].times.next.timePoint >= nodes[p].times.next.timePoint
  {
    if p != q {
      KnownAnnounced(nodes, p, q);
      assert nodes[q].executing;
      var a := Announced(nodes[q].log);
      var from, to := nodes[p].times.current.timePoint, nodes[p].times.next.timePoint;
      assert NoneJumped(a, from, to);
      assert NotJumped(a[|a| - 1], from, to);
      if nodes[q].times.current.timePoint == from && nodes[q].times.dynamic {
        var to' := nodes[q].times.next.timePoint;
        var r, k := SourceMeans(nodes, from, to');
        assert NoneJumped(Announced(nodes[r].log), from, to);
        assert NotJumped(Announced(nodes[r].log)[k], from, to);
      }
    }
  }

  /** Appending an announcement beyond `from` and not before `to` keeps what a step rests on. */
  lemma AlignedAfter(nodes: seq<Node>, i: nat, nd: Node, x: Task, from: int, to: int)
    requires i < |nodes| && Aligned(nodes, from, to)
    requires Announced(nd.log) == Announced(nodes[i].log) + [x]
    requires x.timePoint > from && x.timePoint >= to
    ensures Aligned(nodes[i := nd], from, to)
  {
    var nodes' := nodes[i := nd];
    var q, k := SourceMeans(nodes, from, to);
    var a, a' := Announced(nodes[q].log), Announced(nodes'[q].log);
    assert a'[..|a|] == a;
    assert Source(nodes', from, to, q, k);
    forall q | 0 <= q < |nodes'| ensures NoneJumped(Announced(nodes'[q].log), from, to) {
      assert NoneJumped(Announced(nodes[q].log), from, to);
    }
  }

  lemma AnnounceKeepsAlign(nodes: seq<Node>, i: nat, nd: Node)
    requires NodesOk(nodes) && AlignInv(nodes) && i < |nodes|
    requires nodes[i].executing || !nodes[i].started
    requires nd.log == nodes[i].log + [Announce(nodes[i].times.next)] && nd.times == nodes[i].times
    ensures AlignInv(nodes[i := nd])
  {
    var nodes' := nodes[i := nd];
    AnnouncedAppend(nodes[i].log, Announce(nodes[i].times.next));
    forall p | 0 <= p < |nodes'| && Adapts(nodes'[p].times)
      ensures Aligned(nodes', nodes'[p].times.current.timePoint, nodes'[p].times.next.timePoint)
    {
      assert nodes'[p].times == nodes[p].times;
      AnnouncementAhead(nodes, p, i);
      AlignedAfter(nodes, i, nd, nodes[i].times.next,
                   nodes[p].times.current.timePoint, nodes[p].times.next.timePoint);
    }
  }

  // ----- beginning a step -----

  /** Everything the beginning participant p may rely on: it is about to step at T. */
  ghost predicate Beginning(nodes: seq<Node>, p: nat, T: int, len: int) {
    && NodesOk(nodes) && AlignInv(nodes) && p < |nodes|
    && MayBegin(nodes[p]) && T == nodes[p].times.next.timePoint
    && len > 0 && StepLength(nodes[p].times, len)
  }

  /** Nobody is more than one announcement ahead of T. */
  lemma OneAhead(nodes: seq<Node>, p: nat, T: int, len: int, q: nat, k: nat)
    requires Beginning(nodes, p, T, len) && q < |nodes| && q != p
    requires k + 1 < |Announced(nodes[q].log)|
    ensures Announced(nodes[q].log)[k].timePoint <= T
    ensures nodes[q].times.current.timePoint <= T
  {
    KnownAnnounced(nodes, q, p);
    var a := Announced(nodes[q].log);
    assert NodeSound(nodes[q]);
    if !nodes[q].executing && k < |a| - 2 {
      ChainAscends(a, nodes[q].times.dynamic, k, |a| - 2);
    } else if nodes[q].executing {
      ChainAscends(a, nodes[q].times.dynamic, k, |a| - 1);
    }
  }

  /** p's knowledge of q is one of q's announcements, and it does not lie before T. */
  lemma KnownIndex(nodes: seq<Node>, p: nat, T: int, len: int, q: nat) returns (m: nat)
    requires Beginning(nodes, p, T, len) && q < |nodes| && q != p
    ensures m < |Announced(nodes[q].log)|
    ensures nodes[p].times.others[q] == Announced(nodes[q].log)[m]
    ensures Announced(nodes[q].log)[m].timePoint >= T >= 0
    ensures Announced(nodes[q].log)[m].duration > 0
    ensures nodes[p].times.dynamic ==> NotPast(Announced(nodes[q].log)[m], T, len)
  {
    assert LinkOk(nodes, p, q);
    assert NodeSound(nodes[p]) && NodeSound(nodes[q]);
    var n := nodes[p].seen[q];
    AnnouncedPrefix(nodes[q].log, n);
    var a := Announced(nodes[p].log);
    LastAscends(a[..1], a, nodes[p].times.dynamic);
    m := |Announced(nodes[q].log[..n])| - 1;
  }

  /** If q announced a step at T, p's step ends no later than q's own step size. */
  lemma BoundedByStepAt(nodes: seq<Node>, p: nat, T: int, len: int, q: nat, k: nat)
    requires Beginning(nodes, p, T, len) && nodes[p].times.dynamic && q < |nodes|
    requires k < |Announced(nodes[q].log)| && Announced(nodes[q].log)[k].timePoint == T
    ensures len <= Announced(nodes[q].log)[k].duration
  {
    var a := Announced(nodes[q].log);
    var dynamic := nodes[q].times.dynamic;
    assert NodeSound(nodes[q]);
    if q == p {
      if k < |a| - 1 {
        ChainAscends(a, dynamic, k, |a| - 1);
      }
    } else {
      var m := KnownIndex(nodes, p, T, len, q);
      if m < k {
        ChainAscends(a, dynamic, m, k);
      } else if k + 1 < m {
        ChainAscends(a, dynamic, k, m - 1);
        OneAhead(nodes, p, T, len, q, m - 1);
      } else if k + 1 == m {
        assert Follows(a[k], a[m].timePoint, dynamic);
      }
    }
  }

  /** If q's next step lies after T and q has none at T, p's step ends no later than there. */
  lemma BoundedByStepAfter(nodes: seq<Node>, p: nat, T: int, len: int, q: nat, k: nat)
    requires Beginning(nodes, p, T, len) && nodes[p].times.dynamic && q < |nodes| && q != p
    requires k < |Announced(nodes[q].log)| && Announced(nodes[q].log)[k].timePoint > T
    requires NoStepAt(Announced(nodes[q].log), T)
    ensures T + len <= Announced(nodes[q].log)[k].timePoint
  {
    var a := Announced(nodes[q].log);
    var m := KnownIndex(nodes, p, T, len, q);
    assert a[m].timePoint != T;
    if m + 1 < |a| {
      OneAhead(nodes, p, T, len, q, m);
    }
    if k + 1 < |a| {
      OneAhead(nodes, p, T, len, q, k);
    }
  }

  /** The reason for another adapting participant's step at T binds p as well. */
  lemma SourceBinds(nodes: seq<Node>, p: nat, T: int, len: int, to: int)
    requires Beginning(nodes, p, T, len) && nodes[p].times.dynamic
    requires HasSource(nodes, T, to)
    ensures T + len <= to
  {
    var q, k := SourceMeans(nodes, T, to);
    var a := Announced(nodes[q].log);
    assert NodeSound(nodes[p]);
    if a[k].timePoint == T {
      BoundedByStepAt(nodes, p, T, len, q, k);
    } else {
      var own := Announced(nodes[p].log);
      assert own[|own| - 1].timePoint == T;
      BoundedByStepAfter(nodes, p, T, len, q, k);
    }
  }

  /** An announcement beyond T is q's last one; if q also had a step at T, that is its current step. */
  lemma LastBeyond(nodes: seq<Node>, p: nat, T: int, len: int, q: nat, h: nat, k: nat)
    requires Beginning(nodes, p, T, len) && q < |nodes| && q != p
    requires h < |Announced(nodes[q].log)| && Announced(nodes[q].log)[h].timePoint == T
    requires k < |Announced(nodes[q].log)| && Announced(nodes[q].log)[k].timePoint > T
    ensures k == |Announced(nodes[q].log)| - 1 == h + 1
    ensures nodes[q].times.current.timePoint == T
    ensures nodes[q].times.next.timePoint == Announced(nodes[q].log)[k].timePoint
    ensures !nodes[q].executing
  {
    var a := Announced(nodes[q].log);
    var dynamic := nodes[q].times.dynamic;
    assert NodeSound(nodes[q]);
    if k + 1 < |a| {
      OneAhead(nodes, p, T, len, q, k);
    }
    if k < h {
      ChainAscends(a, dynamic, k, h);
    }
    if h + 1 < k {
      ChainAscends(a, dynamic, h, k - 1);
      OneAhead(nodes, p, T, len, q, k - 1);
    }
    OneAhead(nodes, p, T, len, q, h);
  }

  lemma NeverJumps(nodes: seq<Node>, p: nat, T: int, len: int, q: nat, k: nat)
    requires Beginning(nodes, p, T, len) && nodes[p].times.dynamic && q < |nodes|
    requires k < |Announced(nodes[q].log)|
    ensures NotJumped(Announced(nodes[q].log)[k], T, T + len)
  {
    var a := Announced(nodes[q].log);
    var dynamic := nodes[q].times.dynamic;
    assert NodeSound(nodes[q]);
    if a[k].timePoint == T {
      BoundedByStepAt(nodes, p, T, len, q, k);
    } else if a[k].timePoint > T && q == p {
      if k < |a| - 1 {
        ChainAscends(a, dynamic, k, |a| - 1);
      }
    } else if a[k].timePoint > T {
      if NoStepAt(a, T) {
        BoundedByStepAfter(nodes, p, T, len, q, k);
      } else {
        var h :| 0 <= h < |a| && a[h].timePoint == T;
        LastBeyond(nodes, p, T, len, q, h, k);
        if dynamic {
          var _ := KnownIndex(nodes, p, T, len, q);
          assert Adapts(nodes[q].times);
          SourceBinds(nodes, p, T, len, a[k].timePoint);
        } else {
          assert Follows(a[h], a[k].timePoint, dynamic);
          BoundedByStepAt(nodes, p, T, len, q, h);
        }
      }
    }
  }

  lemma HasReason(nodes: seq<Node>, p: nat, T: int, len: int)
    requires Beginning(nodes, p, T, len) && nodes[p].times.dynamic
    ensures HasSource(nodes, T, T + len)
  {
    var t := nodes[p].times;
    assert NodeSound(nodes[p]);
    if len == t.next.duration {
      assert Source(nodes, T, T + len, p, |Announced(nodes[p].log)| - 1);
    } else {
      var q :| q in t.others && StopsAt(t.others[q], T, len);
      assert Shape(nodes[p], p, |nodes|);
      var a := Announced(nodes[q].log);
      var m := KnownIndex(nodes, p, T, len, q);
      if a[m].timePoint == T || NoStepAt(a, T) {
        assert Source(nodes, T, T + len, q, m);
      } else {
        var h :| 0 <= h < |a| && a[h].timePoint == T;
        LastBeyond(nodes, p, T, len, q, h, m);
        if !nodes[q].times.dynamic {
          assert NodeSound(nodes[q]);
          assert Follows(a[h], a[m].timePoint, false);
          assert Source(nodes, T, T + len, q, h);
        }
      }
    }
  }

  /** The step that begins is aligned with what everybody has announced. */
  lemma BegunAligned(nodes: seq<Node>, p: nat, T: int, len: int)
    requires Beginning(nodes, p, T, len) && nodes[p].times.dynamic
    ensures Aligned(nodes, T, T + len)
  {
    HasReason(nodes, p, T, len);
    forall q | 0 <= q < |nodes| ensures NoneJumped(Announced(nodes[q].log), T, T + len) {
      forall k | 0 <= k < |Announced(nodes[q].log)|
        ensures NotJumped(Announced(nodes[q].log)[k], T, T + len)
      {
        NeverJumps(nodes, p, T, len, q, k);
      }
    }
  }

  /** Alignment is a matter of what has been announced. */
  lemma SameLogsAligned(nodes: seq<Node>, i: nat, nd: Node, from: int, to: int)
    requires i < |nodes| && nd.log == nodes[i].log && Aligned(nodes, from, to)
    ensures Aligned(nodes[i := nd], from, to)
  {
    var nodes' := nodes[i := nd];
    var r, k := SourceMeans(nodes, from, to);
    assert Source(nodes', from, to, r, k);
    forall q | 0 <= q < |nodes'| ensures NoneJumped(Announced(nodes'[q].log), from, to) {
      assert NoneJumped(Announced(nodes[q].log), from, to);
    }
  }

  lemma BeginKeepsAlign(nodes: seq<Node>, i: nat)
    requires NodesOk(nodes) && AlignInv(nodes) && i < |nodes| && MayBegin(nodes[i])
    ensures AlignInv(nodes[i := Begun(nodes[i])])
  {
    var nd := Begun(nodes[i]);
    var nodes' := nodes[i := nd];
    var T, len := nodes[i].times.next.timePoint, LengthOf(nodes[i].times);
    forall p | 0 <= p < |nodes'| && Adapts(nodes'[p].times)
      ensures Aligned(nodes', nodes'[p].times.current.timePoint, nodes'[p].times.next.timePoint)
    {
      if p == i {
        BegunAligned(nodes, i, T, len);
      }
      SameLogsAligned(nodes, i, nd, nodes'[p].times.current.timePoint, nodes'[p].times.next.timePoint);
    }
  }

  lemma StepKeepsAlign(s: State, a: Action)
    requires Inv(s) && AlignInv(s.nodes) && Enabled(s, a)
    ensures AlignInv(Apply(s, a).nodes)
  {
    match a
    case Start(i) =>
      AnnounceKeepsAlign(s.nodes, i, Requested(s.nodes[i].(started := true)));
    case Begin(i) =>
      if !HopOn(s.nodes[i].times) {
        BeginKeepsAlign(s.nodes, i);
      }
    case Resize(i, d) =>
      QuietKeepsAlign(s.nodes, i, Resized(s.nodes[i], d));
    case Publish(i, payload) =>
      AnnouncedAppend(s.nodes[i].log, Data(s.nodes[i].times.current.timePoint, payload));
      QuietKeepsAlign(s.nodes, i, Published(s.nodes[i], payload));
    case Complete(i) =>
      if s.nodes[i].executing {
        AnnounceKeepsAlign(s.nodes, i, Requested(s.nodes[i].(executing := false)));
      } else {
        RepeatedCompletion(s, i);
      }
    case Deliver(j, i) =>
      QuietKeepsAlign(s.nodes, i, Delivered(s.nodes[i], j, s.nodes[j].log));
  }

  lemma {:induction false} RunAligns(c: Setup, ss: seq<State>, acts: seq<Action>, k: nat)
    requires Run(c, ss, acts) && k < |ss|
    ensures Inv(ss[k]) && AlignInv(ss[k].nodes)
    decreases k
  {
    RunInv(c, ss, acts, k);
    if k == 0 {
    } else {
      RunAligns(c, ss, acts, k - 1);
      assert Step(ss[k - 1], acts[k - 1], ss[k]);
      StepKeepsAlign(ss[k - 1], acts[k - 1]);
    }
  }
}
