/** Publishers and a subscriber make progress: every run of their tests can go on until any number of
    messages has been received, so that the failures of the stop condition do happen. */
module PubSubProgress {
  import opened Basics
  import opened TimeSync
  import opened TimeSafety
  import opened TimePoints
  import opened TimeProgress
  import opened TimeJoin
  import opened Messages
  import opened PublishSubscribe
  import opened PubSubRuns

  /** How many publishers have still to publish in their current step. */
  function Dues(due: seq<bool>): nat {
    if due == [] then 0 else Dues(due[..|due| - 1]) + (if due[|due| - 1] then 1 else 0)
  }

  lemma {:induction false} OneDueLess(due: seq<bool>, i: nat)
    requires i < |due| && due[i]
    ensures Dues(due[i := false]) == Dues(due) - 1
    decreases |due|
  {
    var n := |due| - 1;
    if i == n {
      assert due[i := false][..n] == due[..n];
    } else {
      assert due[i := false][..n] == due[..n][i := false];
      OneDueLess(due[..n], i);
    }
  }

  // ----- going on until a point in time -----

  ghost predicate PromptOn(ws: seq<World>, acts: seq<Action>, from: nat)
    requires |ws| == |acts| + 1
  {
    forall k {:trigger acts[k]} | from <= k < |acts| :: Prompt(ws[k].net, acts[k])
  }

  /** ... as in TimeProgress, with publishing between beginning and completing a step. */
  ghost predicate LessToDo(w: World, w': World, T: int) {
    var b, b' := Behind(w.net.nodes, T), Behind(w'.net.nodes, T);
    var o, o' := Open(w.net.nodes), Open(w'.net.nodes);
    || b' < b
    || (b' == b && (o' < o || (o' == o && (Dues(w'.due) < Dues(w.due)
                                          || (w'.due == w.due && Waiting(w'.net) < Waiting(w.net))))))
  }

  lemma PublishLess(t: Test, w: World, k: nat, T: int)
    requires ValidTest(t) && Sized(t, w) && k < |w.index| && CanDo(t, w, Publish(k + 1, w.index[k]))
    ensures LessToDo(w, Do(t, w, Publish(k + 1, w.index[k])), T)
  {
    SameTimes(w.net.nodes, k + 1, Published(w.net.nodes[k + 1], w.index[k]), T);
    OneDueLess(w.due, k);
  }

  lemma DueAfter(t: Test, w: World, a: Action)
    requires ValidTest(t) && Sized(t, w) && CanDo(t, w, a) && !a.Begin? && !a.Publish?
    ensures Do(t, w, a).due == w.due
  {}

  lemma NetMoveLess(t: Test, w: World, a: Action, T: int)
    requires ValidTest(t) && Sized(t, w) && Inv(w.net) && CanDo(t, w, a) && Progress(w.net, a)
    requires !Do(t, w, a).net.aborted
    requires a.Begin? ==> w.net.nodes[a.who].times.next.timePoint < T
    ensures LessToDo(w, Do(t, w, a), T)
  {
    ProgressIsLess(w.net, a, T);
    DoNet(t, w, a);
    if a.Begin? {
      BeginLess(w.net, a.who, T);
      BehindAfter(w.net.nodes, a.who, Begun(w.net.nodes[a.who]), T);
    } else {
      DueAfter(t, w, a);
    }
  }

  lemma NextTestMove(t: Test, w: World, T: int) returns (a: Action)
    requires ValidTest(t) && Sized(t, w) && Inv(w.net) && !w.net.aborted && !Reached(w.net, T)
    ensures CanDo(t, w, a) && Prompt(w.net, a)
    ensures !Do(t, w, a).net.aborted ==> LessToDo(w, Do(t, w, a), T)
  {
    a := NextMove(w.net, T);
    if a.Complete? && a.who > 0 && w.due[a.who - 1] {
      var k: nat := a.who - 1;
      a := Publish(k + 1, w.index[k]);
      PublishLess(t, w, k, T);
    } else {
      assert CanDo(t, w, a);
      if !Do(t, w, a).net.aborted {
        NetMoveLess(t, w, a, T);
      }
    }
  }

  lemma NeverAborted(t: Test, ws: seq<World>, acts: seq<Action>, k: nat)
    requires TestRun(t, ws, acts) && k < |ws|
    ensures !ws[k].net.aborted
  {
    NetRun(t, ws, acts);
    assert GentleStart(Nets(ws), acts);
    GentleStartNeverAborts(SetupOf(t), Nets(ws), acts, k);
  }

  lemma Further(t: Test, ws: seq<World>, acts: seq<Action>, a: Action) returns (ws': seq<World>, acts': seq<Action>)
    requires TestRun(t, ws, acts) && Sized(t, ws[|acts|]) && CanDo(t, ws[|acts|], a)
    ensures TestRun(t, ws', acts') && acts' == acts + [a] && ws' == ws + [Do(t, ws[|acts|], a)]
  {
    ws', acts' := ws + [Do(t, ws[|acts|], a)], acts + [a];
    forall k | 0 <= k < |acts'| ensures TestStep(t, ws'[k], acts'[k], ws'[k + 1]) {
      if k < |acts| {
        assert TestStep(t, ws[k], acts[k], ws[k + 1]);
      }
    }
  }

  lemma {:induction false} TestGoesOn(t: Test, ws: seq<World>, acts: seq<Action>, T: int)
    returns (ws': seq<World>, acts': seq<Action>)
    requires TestRun(t, ws, acts)
    ensures TestRun(t, ws', acts') && ws <= ws' && acts <= acts' && PromptOn(ws', acts', |acts|)
    ensures Reached(ws'[|acts'|].net, T)
    decreases Behind(ws[|acts|].net.nodes, T), Open(ws[|acts|].net.nodes), Dues(ws[|acts|].due), Waiting(ws[|acts|].net)
  {
    var w := ws[|acts|];
    if Reached(w.net, T) {
      ws', acts' := ws, acts;
    } else {
      TestRunInv(t, ws, acts, |acts|);
      NeverAborted(t, ws, acts, |acts|);
      var a := NextTestMove(t, w, T);
      var ws1, acts1 := Further(t, ws, acts, a);
      NeverAborted(t, ws1, acts1, |acts1|);
      assert ws1[|acts1|] == Do(t, w, a);
      ws', acts' := TestGoesOn(t, ws1, acts1, T);
      assert ws'[|acts|] == w && acts'[|acts|] == a;
    }
  }

  // ----- late enough, everything has been received -----

  /** A participant that keeps its step size is one period behind what it wants. */
  lemma OnePeriodBehind(nd: Node, d: int)
    requires NodeOk(nd) && Periodic(nd, d) && d > 0 && !nd.times.dynamic && nd.times.next.timePoint > 0
    ensures nd.started && nd.times.current.timePoint == nd.times.next.timePoint - d
  {
    var a := Announced(nd.log);
    if nd.started && !nd.executing && |a| > 1 {
      assert Follows(a[|a| - 2], a[|a| - 1].timePoint, false);
    }
  }

  /** A publisher that wants a step after its last message's time has published everything. */
  lemma AllPublished(nd: Node, d: int, num: nat, index: nat, due: bool)
    requires NodeOk(nd) && Periodic(nd, d) && d > 0 && !nd.times.dynamic && PublisherOk(nd, d, num, index, due)
    requires nd.times.next.timePoint > Nth(num, d)
    ensures |DataOf(nd.log)| == num
  {
    NthNonNegative(num, d);
    OnePeriodBehind(nd, d);
    StepTime(nd, d);
    var n := Steps(nd);
    if n <= num {
      if n < num {
        NthAscends(n, num, d);
      }
      assert false;
    }
  }

  lemma BeforeNow(net: State, j: nat, b: nat)
    requires Inv(net) && In(net, 0) && In(net, j) && j != 0 && j < |net.nodes[0].seen|
    requires b < |net.nodes[j].log| && net.nodes[j].log[b].Data?
    requires net.nodes[j].log[b].sent < net.nodes[0].times.current.timePoint
    ensures b < net.nodes[0].seen[j]
  {
    assert NodeSound(net.nodes[0]);
    LaterNext(net.nodes[0]);
    PastIsDelivered(net, 0, j, b);
  }

  lemma LaterNext(nd: Node)
    requires NodeSound(nd)
    ensures nd.times.current.timePoint <= nd.times.next.timePoint
  {
    var a := Announced(nd.log);
    if nd.started && !nd.executing && |a| > 1 {
      assert Follows(a[|a| - 2], a[|a| - 1].timePoint, nd.times.dynamic);
    }
  }

  /** If an arrived part of a log misses a message, it ends before that message. */
  lemma ArrivedMessages(log: seq<Packet>, n: nat, b: nat)
    requires b < n <= |log| && log[b].Data?
    ensures |DataOf(log[..b])| < |DataOf(log[..n])|
  {
    assert log[..n][..b + 1] == log[..b + 1] == log[..b] + [log[b]];
    DataPrefix(log[..n], b + 1);
    DataAppend(log[..b], log[b]);
  }

  /** The subscriber, once it has stepped at or after the time of the last message, has received all. */
  lemma AllArrived(net: State, j: nat, d: int, num: nat)
    requires Inv(net) && In(net, 0) && In(net, j) && j != 0 && j < |net.nodes[0].seen| && d > 0
    requires net.nodes[0].seen[j] <= |net.nodes[j].log|
    requires Regular(DataOf(net.nodes[j].log), d) && |DataOf(net.nodes[j].log)| == num
    requires Nth(num, d) <= net.nodes[0].times.current.timePoint
    ensures |DataOf(net.nodes[j].log[..net.nodes[0].seen[j]])| == num
  {
    var log, n := net.nodes[j].log, net.nodes[0].seen[j];
    DataPrefix(log, n);
    var m := |DataOf(log[..n])|;
    if m < num {
      var b := DataIndex(log, m);
      NthAscends(m, num, d);
      BeforeNow(net, j, b);
      ArrivedMessages(log, n, b);
      assert false;
    }
  }

  /** After all messages of the first n publishers. */
  function AfterAll(t: Test, n: nat): (T: int)
    requires ValidTest(t) && n <= |t.publisherPeriods|
    ensures T > 0 && forall k | 0 <= k < n :: T > Nth(t.num, t.publisherPeriods[k])
  {
    if n == 0 then 1
    else
      var T, last := AfterAll(t, n - 1), Nth(t.num, t.publisherPeriods[n - 1]) + 1;
      if last > T then last else T
  }

  lemma SubscriberLate(t: Test, w: World, T: int)
    requires TestInv(t, w) && T > 0 && w.net.nodes[0].times.next.timePoint >= T + t.period
    ensures w.net.nodes[0].times.current.timePoint >= T
  {
    NotDynamic(t, w, 0);
    assert NodeSound(w.net.nodes[0]);
    OnePeriodBehind(w.net.nodes[0], t.period);
  }

  lemma SoundNode(net: State, i: nat)
    requires Inv(net) && In(net, i)
    ensures NodeOk(net.nodes[i])
  {
    assert NodeSound(net.nodes[i]);
  }

  lemma PublisherSteps(t: Test, w: World, k: nat)
    requires ValidTest(t) && PeriodInv(SetupOf(t), w.net.nodes) && k < |t.publisherPeriods|
    ensures k + 1 < |w.net.nodes| && !w.net.nodes[k + 1].times.dynamic
    ensures Periodic(w.net.nodes[k + 1], t.publisherPeriods[k])
  {
    NotDynamic(t, w, k + 1);
    assert SetupOf(t).period[k + 1] == t.publisherPeriods[k];
  }

  lemma PublisherCounts(t: Test, w: World, k: nat)
    requires TestInv(t, w) && k < |w.index|
    ensures PublisherOk(w.net.nodes[k + 1], t.publisherPeriods[k], t.num, w.index[k], w.due[k])
    ensures SubscriberOk(w, k)
  {}

  /** A subscriber that is late enough has counted all messages of a publisher that is. */
  lemma CountComplete(net: State, sub: Subscription, k: nat, d: int, num: nat, index: nat, due: bool)
    requires Inv(net) && d > 0 && k + 1 < |net.nodes| && k < |sub.counts|
    requires k + 1 < |net.nodes[0].seen| && net.nodes[0].seen[k + 1] <= |net.nodes[k + 1].log|
    requires sub.counts[k] == |DataOf(net.nodes[k + 1].log[..net.nodes[0].seen[k + 1]])|
    requires var nd := net.nodes[k + 1];
             NodeOk(nd) && Periodic(nd, d) && !nd.times.dynamic && PublisherOk(nd, d, num, index, due)
    requires net.nodes[k + 1].times.next.timePoint > Nth(num, d)
    requires Nth(num, d) <= net.nodes[0].times.current.timePoint
    ensures sub.counts[k] == num
  {
    AllPublished(net.nodes[k + 1], d, num, index, due);
    AllArrived(net, k + 1, d, num);
  }

  lemma LateIsComplete(t: Test, w: World)
    requires TestInv(t, w) && Reached(w.net, AfterAll(t, |t.publisherPeriods|) + t.period)
    ensures AllReceived(w.sub.counts, t.num)
  {
    var T := AfterAll(t, |t.publisherPeriods|);
    SubscriberLate(t, w, T);
    forall k | 0 <= k < |w.sub.counts| ensures w.sub.counts[k] == t.num {
      assert w.net.nodes[k + 1].times.next.timePoint > T > Nth(t.num, t.publisherPeriods[k]);
      SoundNode(w.net, k + 1);
      PublisherSteps(t, w, k);
      PublisherCounts(t, w, k);
      CountComplete(w.net, w.sub, k, t.publisherPeriods[k], t.num, w.index[k], w.due[k]);
    }
  }

  // ----- every number of messages is received -----

  function Total(w: World): nat { Sum(w.sub.counts) }

  /** Messages are received one at a time. */
  lemma GrowsByOne(t: Test, ws: seq<World>, acts: seq<Action>, k: nat)
    requires TestRun(t, ws, acts) && k < |acts|
    ensures Total(ws[k]) <= Total(ws[k + 1]) <= Total(ws[k]) + 1
  {
    TestRunInv(t, ws, acts, k);
    assert TestStep(t, ws[k], acts[k], ws[k + 1]);
    if Arrival(ws[k].net, acts[k]) {
      ArrivalPasses(t, ws[k], acts[k].from);
      CountedOne(ws[k].sub, acts[k].from - 1, t.num);
      assert ws[k + 1].sub == Counted(ws[k].sub, acts[k].from - 1, t.num);
    } else {
      assert ws[k + 1].sub.counts == ws[k].sub.counts;
    }
  }

  lemma {:induction false} AtTotal(t: Test, ws: seq<World>, acts: seq<Action>, from: nat, end: nat, total: nat)
    returns (k: nat)
    requires TestRun(t, ws, acts) && from <= end < |ws| && Total(ws[from]) <= total <= Total(ws[end])
    ensures from <= k <= end && Total(ws[k]) == total
    decreases end
  {
    if Total(ws[end]) == total {
      k := end;
    } else {
      GrowsByOne(t, ws, acts, end - 1);
      k := AtTotal(t, ws, acts, from, end - 1, total);
    }
  }

  lemma UpTo(t: Test, ws: seq<World>, acts: seq<Action>, k: nat)
    requires TestRun(t, ws, acts) && k < |ws|
    ensures TestRun(t, ws[..k + 1], acts[..k])
  {
    forall m | 0 <= m < k ensures TestStep(t, ws[..k + 1][m], acts[..k][m], ws[..k + 1][m + 1]) {
      assert TestStep(t, ws[m], acts[m], ws[m + 1]);
    }
  }

  /** Every run can go on, promptly, until any number of messages up to the goal has been received. */
  lemma ReceivesAnyTotal(t: Test, ws: seq<World>, acts: seq<Action>, total: nat)
    returns (ws': seq<World>, acts': seq<Action>)
    requires TestRun(t, ws, acts) && Total(ws[|acts|]) <= total <= Goal(t)
    ensures TestRun(t, ws', acts') && ws <= ws' && acts <= acts' && PromptOn(ws', acts', |acts|)
    ensures Total(ws'[|acts'|]) == total
  {
    ws', acts' := TestGoesOn(t, ws, acts, AfterAll(t, |t.publisherPeriods|) + t.period);
    TestRunInv(t, ws', acts', |acts'|);
    LateIsComplete(t, ws'[|acts'|]);
    TotalIsComplete(t, ws', acts', |acts'|);
    var k := AtTotal(t, ws', acts', |acts|, |acts'|, total);
    UpTo(t, ws', acts', k);
    assert PromptOn(ws'[..k + 1], acts'[..k], |acts|) by {
      forall m | |acts| <= m < k ensures Prompt(ws'[..k + 1][m].net, acts'[..k][m]) {
        assert Prompt(ws'[m].net, acts'[m]);
      }
    }
    ws', acts' := ws'[..k + 1], acts'[..k];
  }

  // ----- when Stop is called -----

  ghost predicate PromptTest(t: Test, ws: seq<World>, acts: seq<Action>) {
    TestRun(t, ws, acts) && PromptOn(ws, acts, 0)
  }

  ghost predicate StoppedEarly(t: Test, w: World) {
    w.sub.stops > 0 && !AllReceived(w.sub.counts, t.num)
  }

  lemma RunWithTotal(t: Test, total: nat) returns (ws: seq<World>, acts: seq<Action>)
    requires ValidTest(t) && total <= Goal(t)
    ensures PromptTest(t, ws, acts) && Total(ws[|acts|]) == total
  {
    ws, acts := [InitialWorld(t)], [];
    SumOfZeros(ws[0].sub.counts);
    ws, acts := ReceivesAnyTotal(t, ws, acts, total);
  }

  /** Whatever the periods, Stop is called before everything has been received in some run exactly when
      the goal exceeds 32 bits, and it is called at all in some run exactly when there is a goal. */
  lemma StopsExactly(t: Test)
    requires ValidTest(t)
    ensures (exists ws: seq<World>, acts: seq<Action> :: PromptTest(t, ws, acts) && StoppedEarly(t, ws[|acts|]))
            <==> Goal(t) > W
    ensures (exists ws: seq<World>, acts: seq<Action> :: PromptTest(t, ws, acts) && ws[|acts|].sub.stops > 0)
            <==> Goal(t) > 0
  {
    if Goal(t) > W {
      var ws, acts := RunWithTotal(t, FirstHit(Goal(t)));
      StopsWrongly(t, ws, acts, |acts|);
      assert StoppedEarly(t, ws[|acts|]);
    } else if Goal(t) > 0 {
      var ws, acts := RunWithTotal(t, Goal(t));
      TotalIsComplete(t, ws, acts, |acts|);
      StopsOnceWhenComplete(t, ws, acts, |acts|);
    }
    forall ws: seq<World>, acts: seq<Action> | PromptTest(t, ws, acts) && ws[|acts|].sub.stops > 0
      ensures Goal(t) > 0 && (StoppedEarly(t, ws[|acts|]) ==> Goal(t) > W)
    {
      StopsWrongly(t, ws, acts, |acts|);
      if 0 < Goal(t) <= W {
        StopsOnceWhenComplete(t, ws, acts, |acts|);
      }
    }
  }
}
