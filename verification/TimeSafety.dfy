/** What the documentation of the virtual time synchronization promises its users, for every run. */
module TimeSafety {
  import opened TimeModel
  import opened TimeSync

  /** What participant i knows of j, in terms of the whole log of j. */
  lemma KnownAnnounced(nodes: seq<Node>, i: nat, j: nat)
    requires NodesOk(nodes) && i < |nodes| && j < |nodes| && i != j
    ensures nodes[i].times.current.timePoint <= nodes[i].times.others[j].timePoint
            <= View(nodes[j].log).timePoint <= nodes[j].times.next.timePoint
    ensures nodes[j].executing ==> View(nodes[j].log).timePoint == nodes[j].times.current.timePoint
    ensures nodes[j].started && !nodes[j].executing ==> View(nodes[j].log) == nodes[j].times.next
  {
    assert LinkOk(nodes, i, j);
    ViewAscends(nodes[j].log, nodes[j].times.dynamic, nodes[i].seen[j], nodes[i].seen[j]);
  }

  /** A message that arrives in or after the step at time T, before the step at T + duration, was
      sent at a time point within [T, T + duration]. */
  lemma MessageWindow(s: State, j: nat, i: nat)
    requires Inv(s) && Enabled(s, Deliver(j, i))
    requires s.nodes[j].log[s.nodes[i].seen[j]].Data?
    ensures var sent := s.nodes[j].log[s.nodes[i].seen[j]].sent;
            && 0 <= sent
            && s.nodes[i].times.current.timePoint <= sent <= s.nodes[i].times.next.timePoint
  {
    var n := s.nodes[i].seen[j];
    assert LinkOk(s.nodes, i, j);
    assert Stamped(s.nodes[j].log, n, s.nodes[j].times.current.timePoint);
    KnownAnnounced(s.nodes, j, i);
  }

  /** When the step at time T may begin, or is running, nothing sent before T is still under way. */
  lemma PastIsDelivered(s: State, i: nat, j: nat, b: nat)
    requires Inv(s) && In(s, i) && In(s, j) && i != j
    requires b < |s.nodes[j].log| && s.nodes[j].log[b].Data?
    requires var T := if Enabled(s, Begin(i)) then s.nodes[i].times.next.timePoint
                      else s.nodes[i].times.current.timePoint;
             s.nodes[j].log[b].sent < T
    ensures b < s.nodes[i].seen[j]
  {
    var log := s.nodes[j].log;
    var n := s.nodes[i].seen[j];
    assert LinkOk(s.nodes, i, j);
    assert Stamped(log, b, s.nodes[j].times.current.timePoint);
    if n <= b {
      ViewAscends(log, s.nodes[j].times.dynamic, n, b);
    }
  }

  /** Two participants are never inside steps with different time points: virtual time is common. */
  lemma CommonTime(s: State, i: nat, j: nat)
    requires Inv(s) && In(s, i) && In(s, j)
    requires s.nodes[i].executing && s.nodes[j].executing
    ensures s.nodes[i].times.current.timePoint == s.nodes[j].times.current.timePoint
  {
    if i != j {
      KnownAnnounced(s.nodes, i, j);
      KnownAnnounced(s.nodes, j, i);
    }
  }

  /** The handler for "all other simulation steps are completed" is invoked when an announcement
      arrives during our own asynchronous step and no other participant holds us back any more. */
  ghost predicate OthersCompleted(s: State, i: nat) {
    In(s, i) && s.nodes[i].executing && !Blocked(s.nodes[i].times)
  }

  /** At that moment no other participant is inside a step, none can enter one before we complete
      ours, and completing ours lets us begin the next one at once. */
  lemma OthersCompletedMeansIdle(s: State, i: nat, j: nat)
    requires Inv(s) && !s.aborted && OthersCompleted(s, i) && In(s, j) && j != i
    ensures !s.nodes[j].executing && !Enabled(s, Begin(j))
    ensures Enabled(s, Complete(i)) && Enabled(Apply(s, Complete(i)), Begin(i))
  {
    KnownAnnounced(s.nodes, i, j);
    KnownAnnounced(s.nodes, j, i);
    assert Shape(s.nodes[i], i, |s.nodes|);
    assert Shape(s.nodes[j], j, |s.nodes|);
    assert j in s.nodes[i].times.others && i in s.nodes[j].times.others;
  }

  /** A step that has begun goes on until it is completed. */
  lemma {:induction false} ExecutesUntilCompleted(c: Setup, ss: seq<State>, acts: seq<Action>, j: nat, b: nat, k: nat)
    requires Run(c, ss, acts) && b < k < |ss| && acts[b] == Begin(j) && !ss[b + 1].aborted
    requires forall m | b < m < k :: acts[m] != Complete(j)
    ensures In(ss[k], j) && ss[k].nodes[j].executing
    decreases k
  {
    assert Step(ss[k - 1], acts[k - 1], ss[k]);
    if b == k - 1 {
    } else {
      ExecutesUntilCompleted(c, ss, acts, j, b, k - 1);
      RunInv(c, ss, acts, k - 1);
      assert NodeSound(ss[k - 1].nodes[j]);
    }
  }

  /** The moments at which the handler is invoked lie outside every step of the other participants:
      each step begun before is completed before. */
  lemma OthersCompletedOutsideSteps(c: Setup, ss: seq<State>, acts: seq<Action>, i: nat, j: nat, b: nat, k: nat)
    requires Run(c, ss, acts) && b < k < |ss| && acts[b] == Begin(j) && !ss[b + 1].aborted
    requires OthersCompleted(ss[k], i) && !ss[k].aborted && j != i
    ensures exists m :: b < m < k && acts[m] == Complete(j)
  {
    if forall m | b < m < k :: acts[m] != Complete(j) {
      ExecutesUntilCompleted(c, ss, acts, j, b, k);
      RunInv(c, ss, acts, k);
      OthersCompletedMeansIdle(ss[k], i, j);
      assert false;
    }
  }

  /** An announcement that has not arrived makes the announcements in the log more than those that
      have. */
  lemma StillUnderWay(log: seq<Packet>, n: nat, b: nat)
    requires n <= b < |log| && log[b].Announce?
    ensures |Announced(log[..n])| < |Announced(log)|
    ensures Announced(log[..n]) <= Announced(log)
  {
    assert log[..b + 1] == log[..b] + [log[b]];
    AnnouncedAppend(log[..b], log[b]);
    AnnouncedPrefix(log, b + 1);
    AnnouncedPrefix(log[..b], n);
    assert log[..b][..n] == log[..n];
  }

  /** A participant that has announced more than one step since some announcement has run that step. */
  lemma RanStep(nd: Node, m: nat)
    requires NodeOk(nd) && m + 1 < |Announced(nd.log)|
    ensures nd.times.current.timePoint >= Announced(nd.log)[m].timePoint
  {
    var a := Announced(nd.log);
    var last := if nd.executing then |a| - 1 else |a| - 2;
    if m < last {
      ChainAscends(a, nd.times.dynamic, m, last);
    }
  }

  /** When the others are done nothing but data is still under way to us: no other announcement can
      arrive in this step. */
  lemma NoFurtherAnnouncement(s: State, i: nat, j: nat, b: nat)
    requires Inv(s) && OthersCompleted(s, i) && In(s, j) && j != i
    requires s.nodes[i].seen[j] <= b < |s.nodes[j].log|
    ensures s.nodes[j].log[b].Data?
  {
    var log, n := s.nodes[j].log, s.nodes[i].seen[j];
    if log[b].Announce? {
      StillUnderWay(log, n, b);
      assert LinkOk(s.nodes, i, j) && NodeSound(s.nodes[i]) && NodeSound(s.nodes[j]);
      var m := |Announced(log[..n])|;
      var own := Announced(s.nodes[i].log);
      LastAscends(own[..1], own, s.nodes[i].times.dynamic);
      assert s.nodes[i].times.others[j].timePoint >= s.nodes[i].times.next.timePoint > 0;
      assert m > 0 && Announced(log)[m - 1] == s.nodes[i].times.others[j];
      RanStep(s.nodes[j], m - 1);
      KnownAnnounced(s.nodes, j, i);
      assert false;
    }
  }

  /** The handler is invoked because of an announcement that arrives. */
  ghost predicate Invokes(s: State, a: Action, i: nat) {
    && Enabled(s, a) && a.Deliver? && a.to == i
    && s.nodes[a.from].log[s.nodes[i].seen[a.from]].Announce?
    && OthersCompleted(Apply(s, a), i)
  }

  /** Once the others are done they stay so until we complete our step. */
  lemma StaysCompleted(s: State, a: Action, i: nat)
    requires Inv(s) && Enabled(s, a) && OthersCompleted(s, i) && a != Complete(i)
    ensures OthersCompleted(Apply(s, a), i)
    ensures !Invokes(s, a, i)
  {
    assert NodeSound(s.nodes[i]) && Shape(s.nodes[i], i, |s.nodes|);
    if a.Deliver? && a.to == i {
      NoFurtherAnnouncement(s, i, a.from, s.nodes[i].seen[a.from]);
    }
  }

  lemma {:induction false} CompletedUntilComplete(c: Setup, ss: seq<State>, acts: seq<Action>, i: nat, k: nat, m: nat)
    requires Run(c, ss, acts) && k <= m < |ss| && OthersCompleted(ss[k], i)
    requires forall b | k <= b < m :: acts[b] != Complete(i)
    ensures OthersCompleted(ss[m], i)
    decreases m
  {
    if k == m {
    } else {
      CompletedUntilComplete(c, ss, acts, i, k, m - 1);
      RunInv(c, ss, acts, m - 1);
      assert Step(ss[m - 1], acts[m - 1], ss[m]);
      StaysCompleted(ss[m - 1], acts[m - 1], i);
    }
  }

  /** Arriving announcements invoke the handler at most once in each step. */
  lemma InvokedOncePerStep(c: Setup, ss: seq<State>, acts: seq<Action>, i: nat, k: nat, m: nat)
    requires Run(c, ss, acts) && k < m < |acts| && Invokes(ss[k], acts[k], i) && Invokes(ss[m], acts[m], i)
    ensures exists b :: k < b < m && acts[b] == Complete(i)
  {
    if forall b | k < b < m :: acts[b] != Complete(i) {
      assert Step(ss[k], acts[k], ss[k + 1]);
      CompletedUntilComplete(c, ss, acts, i, k + 1, m);
      RunInv(c, ss, acts, m);
      StaysCompleted(ss[m], acts[m], i);
      assert false;
    }
  }

  /** Calling CompleteSimulationStep again before the next step has begun changes nothing. */
  lemma RepeatedCompletion(s: State, i: nat)
    requires Inv(s) && Enabled(s, Complete(i))
    ensures Enabled(Apply(s, Complete(i)), Complete(i))
    ensures Apply(Apply(s, Complete(i)), Complete(i)) == Apply(s, Complete(i))
    ensures !s.nodes[i].executing ==> Apply(s, Complete(i)) == s
  {
    var nd := s.nodes[i];
    var once := Apply(s, Complete(i));
    assert once.nodes[i := once.nodes[i]] == once.nodes;
    assert s.nodes[i := s.nodes[i]] == s.nodes;
    assert nd.(executing := false) == nd || nd.executing;
  }

  // ----- progress -----

  lemma {:induction false} EarliestNext(nodes: seq<Node>, n: nat) returns (m: nat)
    requires 0 < n <= |nodes|
    ensures m < n
    ensures forall j | 0 <= j < n :: nodes[m].times.next.timePoint <= nodes[j].times.next.timePoint
  {
    m := 0;
    if n == 1 {
    } else {
      m := EarliestNext(nodes, n - 1);
      if nodes[n - 1].times.next.timePoint < nodes[m].times.next.timePoint {
        m := n - 1;
      }
    }
  }

  /** Actions that move the simulation on: not merely more data, and not a repeated completion. */
  ghost predicate Progress(s: State, a: Action) {
    && Enabled(s, a)
    && (a.Start? || a.Begin? || a.Deliver? || (a.Complete? && s.nodes[a.who].executing))
  }

  lemma EarliestMayBegin(s: State, m: nat)
    requires Inv(s) && m < |s.nodes|
    requires forall j | 0 <= j < |s.nodes| ::
               && s.nodes[j].started && !s.nodes[j].executing
               && s.nodes[m].times.next.timePoint <= s.nodes[j].times.next.timePoint
    requires forall j | 0 <= j < |s.nodes| && j != m :: s.nodes[m].seen[j] >= |s.nodes[j].log|
    ensures MayBegin(s.nodes[m])
  {
    var t := s.nodes[m].times;
    assert Shape(s.nodes[m], m, |s.nodes|);
    forall j | j in t.others ensures t.next.timePoint <= t.others[j].timePoint {
      assert LinkOk(s.nodes, m, j);
      assert s.nodes[j].log[..s.nodes[m].seen[j]] == s.nodes[j].log;
      KnownAnnounced(s.nodes, m, j);
    }
  }

  /** No interleaving, no mixture of step sizes and no dynamic stepping ever deadlocks. */
  lemma NoDeadlock(s: State)
    requires Inv(s) && !s.aborted && s.nodes != []
    ensures exists a :: Progress(s, a)
  {
    if i: nat :| i < |s.nodes| && !s.nodes[i].started {
      assert Progress(s, Start(i));
    } else if i: nat :| i < |s.nodes| && s.nodes[i].executing {
      assert Progress(s, Complete(i));
    } else {
      var m := EarliestNext(s.nodes, |s.nodes|);
      assert Shape(s.nodes[m], m, |s.nodes|);
      if j: nat :| j < |s.nodes| && j != m && s.nodes[m].seen[j] < |s.nodes[j].log| {
        assert Progress(s, Deliver(j, m));
      } else {
        EarliestMayBegin(s, m);
        assert Progress(s, Begin(m));
      }
    }
  }
}
