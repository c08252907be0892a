/** Virtual time does not stand still: a step that may begin is never overlooked, and however the
    participants go on, every point in time is reached. */
module TimeProgress {
  import opened TimeModel
  import opened TimeSync
  import opened TimeSafety
  import opened TimePoints

  // ----- prompt runs -----

  predicate Announcement(s: State, a: Action) {
    && a.Deliver? && In(s, a.to) && In(s, a.from) && a.from < |s.nodes[a.to].seen|
    && s.nodes[a.to].seen[a.from] < |s.nodes[a.from].log|
    && s.nodes[a.from].log[s.nodes[a.to].seen[a.from]].Announce?
  }

  /** A participant looks for its next step in the very callback that makes the step possible. So no
      announcement gets to it while it has a step to begin. */
  ghost predicate Prompt(s: State, a: Action) {
    Announcement(s, a) ==> !MayBegin(s.nodes[a.to])
  }

  ghost predicate PromptRun(c: Setup, ss: seq<State>, acts: seq<Action>) {
    Run(c, ss, acts) && forall k {:trigger acts[k]} | 0 <= k < |acts| :: Prompt(ss[k], acts[k])
  }

  /** Only these make the participant look whether it may begin: its own request for the next step, and
      the announcements it receives. Nothing else ever lets it. */
  lemma EnabledByUpdate(s: State, a: Action, i: nat)
    requires Inv(s) && Enabled(s, a) && In(s, i) && !MayBegin(s.nodes[i])
    requires |Apply(s, a).nodes| == |s.nodes| && MayBegin(Apply(s, a).nodes[i])
    ensures a == Start(i) || a == Complete(i) || (Announcement(s, a) && a.to == i)
  {
    assert NodeSound(s.nodes[i]);
    Effect(s, a, i);
  }

  /** And it may until it does. */
  lemma MayUntilBegun(s: State, a: Action, i: nat)
    requires Inv(s) && Enabled(s, a) && In(s, i) && MayBegin(s.nodes[i]) && a != Begin(i)
    ensures |Apply(s, a).nodes| == |s.nodes| && MayBegin(Apply(s, a).nodes[i])
  {
    assert NodeSound(s.nodes[i]) && Shape(s.nodes[i], i, |s.nodes|);
    if a.Deliver? && a.to == i {
      StaysFree(s, a.from, i);
    }
  }

  lemma StaysFree(s: State, j: nat, i: nat)
    requires Inv(s) && Enabled(s, Deliver(j, i)) && !Blocked(s.nodes[i].times)
    ensures !Blocked(Delivered(s.nodes[i], j, s.nodes[j].log).times)
  {
    var nd := Delivered(s.nodes[i], j, s.nodes[j].log);
    var log, n := s.nodes[j].log, s.nodes[i].seen[j];
    assert LinkOk(s.nodes, i, j);
    DeliveredKnows(s.nodes, j, i);
    ViewAscends(log, s.nodes[j].times.dynamic, n, n + 1);
    forall k | k in nd.times.others ensures nd.times.next.timePoint <= nd.times.others[k].timePoint {
      assert s.nodes[i].times.others[k].timePoint <= nd.times.others[k].timePoint;
    }
  }

  // ----- what is left to do before a point in time -----

  /** How far all participants together are from wanting a step at T or later. */
  function Behind(nodes: seq<Node>, T: int): (r: nat) {
    if nodes == [] then 0
    else Behind(nodes[..|nodes| - 1], T) + Gap(nodes[|nodes| - 1], T)
  }

  function Gap(nd: Node, T: int): nat {
    if nd.times.next.timePoint < T then T - nd.times.next.timePoint else 0
  }

  /** How many participants have still to start, or to complete their step. */
  function Open(nodes: seq<Node>): nat {
    if nodes == [] then 0
    else Open(nodes[..|nodes| - 1]) + (if IsOpen(nodes[|nodes| - 1]) then 1 else 0)
  }

  predicate IsOpen(nd: Node) { !nd.started || nd.executing }

  /** How many packets are still under way to participant i from the first m participants. */
  function Unread(nodes: seq<Node>, i: nat, m: nat): int
    requires i < |nodes| && m <= |nodes| && |nodes[i].seen| == |nodes|
  {
    if m == 0 then 0
    else Unread(nodes, i, m - 1) + (if m - 1 == i then 0 else |nodes[m - 1].log| - nodes[i].seen[m - 1])
  }

  ghost predicate RowsSized(nodes: seq<Node>) {
    forall i {:trigger nodes[i]} | 0 <= i < |nodes| :: |nodes[i].seen| == |nodes|
  }

  /** ... and to the first n participants. */
  function UnderWay(nodes: seq<Node>, n: nat): int
    requires n <= |nodes| && RowsSized(nodes)
  {
    if n == 0 then 0 else UnderWay(nodes, n - 1) + Unread(nodes, n - 1, |nodes|)
  }

  lemma {:induction false} BehindAfter(nodes: seq<Node>, i: nat, nd: Node, T: int)
    requires i < |nodes|
    ensures Behind(nodes[i := nd], T) == Behind(nodes, T) - Gap(nodes[i], T) + Gap(nd, T)
    decreases |nodes|
  {
    var n := |nodes| - 1;
    if i == n {
      assert nodes[i := nd][..n] == nodes[..n];
    } else {
      assert nodes[i := nd][..n] == nodes[..n][i := nd];
      BehindAfter(nodes[..n], i, nd, T);
    }
  }

  lemma {:induction false} OpenAfter(nodes: seq<Node>, i: nat, nd: Node)
    requires i < |nodes|
    ensures Open(nodes[i := nd])
            == Open(nodes) - (if IsOpen(nodes[i]) then 1 else 0) + (if IsOpen(nd) then 1 else 0)
    decreases |nodes|
  {
    var n := |nodes| - 1;
    if i == n {
      assert nodes[i := nd][..n] == nodes[..n];
    } else {
      assert nodes[i := nd][..n] == nodes[..n][i := nd];
      OpenAfter(nodes[..n], i, nd);
    }
  }

  /** Participant i has received one more packet of j. */
  ghost predicate OneRead(nodes: seq<Node>, nodes': seq<Node>, j: nat, i: nat) {
    && RowsSized(nodes) && RowsSized(nodes') && |nodes'| == |nodes| && i < |nodes| && j < |nodes| && i != j
    && (forall k {:trigger nodes'[k]} | 0 <= k < |nodes| :: nodes'[k].log == nodes[k].log)
    && (forall k {:trigger nodes'[k]} | 0 <= k < |nodes| ::
          nodes'[k].seen == if k == i then nodes[i].seen[j := nodes[i].seen[j] + 1] else nodes[k].seen)
  }

  lemma {:induction false} UnreadAfter(nodes: seq<Node>, nodes': seq<Node>, j: nat, i: nat, k: nat, m: nat)
    requires OneRead(nodes, nodes', j, i) && k < |nodes| && m <= |nodes|
    ensures Unread(nodes', k, m) == Unread(nodes, k, m) - (if k == i && j < m then 1 else 0)
    decreases m
  {
    if m == 0 {
    } else {
      UnreadAfter(nodes, nodes', j, i, k, m - 1);
    }
  }

  lemma {:induction false} UnderWayAfter(nodes: seq<Node>, nodes': seq<Node>, j: nat, i: nat, n: nat)
    requires OneRead(nodes, nodes', j, i) && n <= |nodes|
    ensures UnderWay(nodes', n) == UnderWay(nodes, n) - (if i < n then 1 else 0)
    decreases n
  {
    if n == 0 {
    } else {
      UnderWayAfter(nodes, nodes', j, i, n - 1);
      UnreadAfter(nodes, nodes', j, i, n - 1, |nodes|);
    }
  }

  lemma {:induction false} UnreadNatural(nodes: seq<Node>, i: nat, m: nat)
    requires NodesOk(nodes) && i < |nodes| && m <= |nodes| && |nodes[i].seen| == |nodes|
    ensures Unread(nodes, i, m) >= 0
    decreases m
  {
    if m == 0 {
    } else {
      UnreadNatural(nodes, i, m - 1);
      if m - 1 != i {
        assert LinkOk(nodes, i, m - 1);
      }
    }
  }

  lemma {:induction false} UnderWayNatural(nodes: seq<Node>, n: nat)
    requires NodesOk(nodes) && RowsSized(nodes) && n <= |nodes|
    ensures UnderWay(nodes, n) >= 0
    decreases n
  {
    if n == 0 {
    } else {
      UnderWayNatural(nodes, n - 1);
      UnreadNatural(nodes, n - 1, |nodes|);
    }
  }

  ghost function Waiting(s: State): nat {
    if RowsSized(s.nodes) && UnderWay(s.nodes, |s.nodes|) >= 0 then UnderWay(s.nodes, |s.nodes|) else 0
  }

  lemma InvSized(s: State)
    requires Inv(s)
    ensures RowsSized(s.nodes) && Waiting(s) == UnderWay(s.nodes, |s.nodes|)
  {
    forall i | 0 <= i < |s.nodes| ensures |s.nodes[i].seen| == |s.nodes| {
      assert Shape(s.nodes[i], i, |s.nodes|);
    }
    UnderWayNatural(s.nodes, |s.nodes|);
  }

  /** Less is left to do before T: less time, or else fewer starts and completions, or else fewer packets
      to receive. */
  ghost predicate Less(s: State, s': State, T: int) {
    var b, b', o, o' := Behind(s.nodes, T), Behind(s'.nodes, T), Open(s.nodes), Open(s'.nodes);
    b' < b || (b' == b && (o' < o || (o' == o && Waiting(s') < Waiting(s))))
  }

  lemma DeliverReads(s: State, j: nat, i: nat)
    requires Inv(s) && Enabled(s, Deliver(j, i))
    ensures OneRead(s.nodes, Apply(s, Deliver(j, i)).nodes, j, i)
    ensures Inv(Apply(s, Deliver(j, i)))
  {
    StepKeepsInv(s, Deliver(j, i));
    InvSized(s);
    InvSized(Apply(s, Deliver(j, i)));
  }

  lemma DeliverFewer(s: State, j: nat, i: nat)
    requires Inv(s) && Enabled(s, Deliver(j, i))
    ensures Waiting(Apply(s, Deliver(j, i))) == Waiting(s) - 1
  {
    var s' := Apply(s, Deliver(j, i));
    DeliverReads(s, j, i);
    UnderWayAfter(s.nodes, s'.nodes, j, i, |s.nodes|);
    InvSized(s);
    InvSized(s');
  }

  lemma SameTimes(nodes: seq<Node>, i: nat, nd: Node, T: int)
    requires i < |nodes| && nd.times.next == nodes[i].times.next
    requires nd.started == nodes[i].started && nd.executing == nodes[i].executing
    ensures Behind(nodes[i := nd], T) == Behind(nodes, T) && Open(nodes[i := nd]) == Open(nodes)
  {
    BehindAfter(nodes, i, nd, T);
    OpenAfter(nodes, i, nd);
  }

  lemma DeliverLess(s: State, j: nat, i: nat, T: int)
    requires Inv(s) && Enabled(s, Deliver(j, i))
    ensures Less(s, Apply(s, Deliver(j, i)), T)
  {
    DeliverFewer(s, j, i);
    SameTimes(s.nodes, i, Delivered(s.nodes[i], j, s.nodes[j].log), T);
  }

  lemma BeginLess(s: State, i: nat, T: int)
    requires Inv(s) && Enabled(s, Begin(i)) && !HopOn(s.nodes[i].times) && s.nodes[i].times.next.timePoint < T
    ensures Less(s, Apply(s, Begin(i)), T)
  {
    BehindAfter(s.nodes, i, Begun(s.nodes[i]), T);
  }

  lemma RequestLess(s: State, i: nat, nd: Node, T: int)
    requires In(s, i) && IsOpen(s.nodes[i])
    requires nd == Requested(s.nodes[i].(started := true, executing := false))
    ensures Less(s, s.(nodes := s.nodes[i := nd]), T)
  {
    BehindAfter(s.nodes, i, nd, T);
    OpenAfter(s.nodes, i, nd);
  }

  /** Steps that begin before T, starts, completions and arrivals: every one of them leaves less to do, so
      without new data only finitely many of them fit before T. */
  lemma ProgressIsLess(s: State, a: Action, T: int)
    requires Inv(s) && Progress(s, a) && (a.Begin? ==> s.nodes[a.who].times.next.timePoint < T)
    ensures Apply(s, a).aborted || Less(s, Apply(s, a), T)
  {
    match a
    case Start(i) =>
      assert NodeSound(s.nodes[i]);
      RequestLess(s, i, Apply(s, a).nodes[i], T);
    case Begin(i) =>
      if !HopOn(s.nodes[i].times) {
        BeginLess(s, i, T);
      }
    case Complete(i) =>
      assert NodeSound(s.nodes[i]);
      RequestLess(s, i, Apply(s, a).nodes[i], T);
    case Deliver(j, i) => DeliverLess(s, j, i, T);
  }

  // ----- every point in time is reached -----

  ghost predicate Reached(s: State, T: int) {
    forall i {:trigger s.nodes[i]} | 0 <= i < |s.nodes| :: s.nodes[i].times.next.timePoint >= T
  }

  /** Until then there is something to do, promptly, that brings everybody closer to T. */
  lemma NextMove(s: State, T: int) returns (a: Action)
    requires Inv(s) && !s.aborted && !Reached(s, T)
    ensures Progress(s, a) && Prompt(s, a) && (a.Begin? ==> s.nodes[a.who].times.next.timePoint < T)
  {
    if i: nat :| i < |s.nodes| && !s.nodes[i].started {
      a := Start(i);
    } else if i: nat :| i < |s.nodes| && s.nodes[i].executing {
      a := Complete(i);
    } else {
      var m := EarliestNext(s.nodes, |s.nodes|);
      assert Shape(s.nodes[m], m, |s.nodes|) && s.nodes[m].times.next.timePoint < T;
      if MayBegin(s.nodes[m]) {
        a := Begin(m);
      } else if j: nat :| j < |s.nodes| && j != m && s.nodes[m].seen[j] < |s.nodes[j].log| {
        a := Deliver(j, m);
      } else {
        EarliestMayBegin(s, m);
        assert false;
      }
    }
  }

  lemma Extend(c: Setup, ss: seq<State>, acts: seq<Action>, a: Action) returns (ss': seq<State>, acts': seq<Action>)
    requires Run(c, ss, acts) && Enabled(ss[|acts|], a)
    ensures Run(c, ss', acts') && acts' == acts + [a] && ss' == ss + [Apply(ss[|acts|], a)]
    ensures PromptRun(c, ss, acts) && Prompt(ss[|acts|], a) ==> PromptRun(c, ss', acts')
  {
    ss', acts' := ss + [Apply(ss[|acts|], a)], acts + [a];
    forall k | 0 <= k < |acts'| ensures Step(ss'[k], acts'[k], ss'[k + 1]) {
      if k < |acts| {
        assert Step(ss[k], acts[k], ss[k + 1]);
      }
    }
    if PromptRun(c, ss, acts) && Prompt(ss[|acts|], a) {
      forall k | 0 <= k < |acts'| ensures Prompt(ss'[k], acts'[k]) {
        if k < |acts| {
          assert Prompt(ss[k], acts[k]);
        }
      }
    }
  }

  lemma OneMove(c: Setup, ss: seq<State>, acts: seq<Action>, T: int) returns (ss': seq<State>, acts': seq<Action>)
    requires Run(c, ss, acts) && !ss[|acts|].aborted && !Reached(ss[|acts|], T)
    ensures Run(c, ss', acts') && ss <= ss' && acts <= acts' && |acts'| == |acts| + 1
    ensures Progress(ss[|acts|], acts'[|acts|]) && Prompt(ss[|acts|], acts'[|acts|])
    ensures ss'[|acts'|].aborted || Less(ss[|acts|], ss'[|acts'|], T)
  {
    RunInv(c, ss, acts, |acts|);
    var a := NextMove(ss[|acts|], T);
    ProgressIsLess(ss[|acts|], a, T);
    ss', acts' := Extend(c, ss, acts, a);
  }

  /** Whatever has happened so far, promptly or not, the participants can go on, promptly, until all of
      them want a step at T or later, unless one of them aborts. */
  lemma {:induction false} TimePasses(c: Setup, ss: seq<State>, acts: seq<Action>, T: int)
    returns (ss': seq<State>, acts': seq<Action>)
    requires Run(c, ss, acts)
    ensures Run(c, ss', acts') && ss <= ss' && acts <= acts'
    ensures forall k | |acts| <= k < |acts'| :: Progress(ss'[k], acts'[k]) && Prompt(ss'[k], acts'[k])
    ensures ss'[|acts'|].aborted || Reached(ss'[|acts'|], T)
    decreases Behind(ss[|acts|].nodes, T), Open(ss[|acts|].nodes), Waiting(ss[|acts|]), !ss[|acts|].aborted
  {
    if ss[|acts|].aborted || Reached(ss[|acts|], T) {
      ss', acts' := ss, acts;
    } else {
      var ss1, acts1 := OneMove(c, ss, acts, T);
      if ss1[|acts1|].aborted {
        ss', acts' := ss1, acts1;
      } else {
        ss', acts' := TimePasses(c, ss1, acts1, T);
      }
      assert ss'[|acts|] == ss[|acts|] && acts'[|acts|] == acts1[|acts|];
    }
  }
}
