/** Joining. A coordinated participant that believes the simulation is already running aborts it.
    It infers that from the first announcements it gets, and the inference can be wrong. */
module TimeJoin {
  import opened TimeModel
  import opened TimeSync
  import opened TimeSafety
  import opened TimeAlign
  import opened TimePoints
  import opened TimeProgress

  /** q has run its first step and then announced a step size smaller than that step was long. */
  ghost predicate ShrankFirstStep(q: Node) {
    var a := Announced(q.log);
    |a| == 2 && a[1].timePoint > a[1].duration
  }

  /** In a simulation whose participants all start at time zero, a participant about to begin its
      first step takes it for an already running one exactly when some peer shrank its first step
      and the announcement of that has arrived. */
  lemma HopOnExactly(s: State, p: nat)
    requires Inv(s) && AlignInv(s.nodes) && Enabled(s, Begin(p))
    ensures HopOn(s.nodes[p].times)
            <==> && s.nodes[p].times.current.timePoint == -1
                 && exists q | 0 <= q < |s.nodes| :: q != p && ShrankFirstStep(s.nodes[q])
                      && s.nodes[p].times.others[q] == Announced(s.nodes[q].log)[1]
  {
    var t := s.nodes[p].times;
    assert Shape(s.nodes[p], p, |s.nodes|);
    if t.current.timePoint == -1 {
      assert NodeSound(s.nodes[p]);
      FirstStep(s.nodes[p]);
      forall q | 0 <= q < |s.nodes| && q != p
        ensures t.others[q].timePoint > t.others[q].duration
                <==> ShrankFirstStep(s.nodes[q]) && t.others[q] == Announced(s.nodes[q].log)[1]
      {
        KnownBeforeFirst(s, p, q);
      }
    }
  }

  /** Before p's first step, what it knows of q is q's first or second announcement, and q has made
      no third one. */
  lemma KnownBeforeFirst(s: State, p: nat, q: nat)
    requires Inv(s) && AlignInv(s.nodes) && Enabled(s, Begin(p)) && In(s, q) && q != p
    requires s.nodes[p].times.next.timePoint == 0
    ensures var a := Announced(s.nodes[q].log);
            && 1 <= |a| <= 2 && a[0].timePoint < a[0].duration
            && (s.nodes[p].times.others[q] == a[0] || (|a| == 2 && s.nodes[p].times.others[q] == a[1]))
  {
    var len := LengthOf(s.nodes[p].times);
    var m := KnownIndex(s.nodes, p, 0, len, q);
    var a := Announced(s.nodes[q].log);
    assert NodeSound(s.nodes[q]);
    if |a| > 2 {
      ChainAscends(a, s.nodes[q].times.dynamic, 0, 1);
      OneAhead(s.nodes, p, 0, len, q, 1);
    }
  }

  // ----- without such a shrinking nobody ever aborts -----

  /** No handler chooses, during its first step, a step size below the length of that step. */
  ghost predicate GentleStart(ss: seq<State>, acts: seq<Action>) {
    |ss| == |acts| + 1 && forall k {:trigger acts[k]} | 0 <= k < |acts| :: Gentle(ss[k], acts[k])
  }

  ghost predicate Gentle(s: State, a: Action) {
    a.Resize? && In(s, a.who) && s.nodes[a.who].times.current.timePoint == 0
    ==> a.duration >= s.nodes[a.who].times.current.duration
  }

  ghost predicate FirstStepCovered(nd: Node) {
    var a := Announced(nd.log);
    && (|a| >= 2 ==> a[1].timePoint <= a[1].duration)
    && (nd.executing && nd.times.current.timePoint == 0 ==> nd.times.next.timePoint <= nd.times.next.duration)
  }

  lemma GentleKept(s: State, a: Action, i: nat)
    requires Inv(s) && Enabled(s, a) && In(s, i) && Gentle(s, a)
    requires FirstStepCovered(s.nodes[i])
    ensures |Apply(s, a).nodes| == |s.nodes| && FirstStepCovered(Apply(s, a).nodes[i])
  {
    var nd, nd' := s.nodes[i], Apply(s, a).nodes[i];
    assert NodeSound(nd);
    Effect(s, a, i);
  }

  lemma {:induction false} GentleRun(c: Setup, ss: seq<State>, acts: seq<Action>, k: nat)
    requires Run(c, ss, acts) && GentleStart(ss, acts) && k < |ss|
    ensures forall i | 0 <= i < |ss[k].nodes| :: FirstStepCovered(ss[k].nodes[i])
    decreases k
  {
    if k == 0 {
    } else {
      GentleRun(c, ss, acts, k - 1);
      RunInv(c, ss, acts, k - 1);
      assert Step(ss[k - 1], acts[k - 1], ss[k]) && Gentle(ss[k - 1], acts[k - 1]);
      forall i | 0 <= i < |ss[k].nodes| ensures FirstStepCovered(ss[k].nodes[i]) {
        GentleKept(ss[k - 1], acts[k - 1], i);
      }
    }
  }

  /** Any number of participants with any step sizes, changed at will after the first step and only
      enlarged in it: the coordinated start never aborts. */
  lemma {:induction false} GentleStartNeverAborts(c: Setup, ss: seq<State>, acts: seq<Action>, k: nat)
    requires Run(c, ss, acts) && GentleStart(ss, acts) && k < |ss|
    ensures !ss[k].aborted
    decreases k
  {
    if k == 0 {
    } else {
      GentleStartNeverAborts(c, ss, acts, k - 1);
      GentleRun(c, ss, acts, k - 1);
      RunAligns(c, ss, acts, k - 1);
      assert Step(ss[k - 1], acts[k - 1], ss[k]);
      if acts[k - 1].Begin? {
        HopOnExactly(ss[k - 1], acts[k - 1].who);
      }
    }
  }

  // ----- and which simulations can abort -----

  /** Participant q can take a step size of `small` in its first step and thereby shrink that step,
      which lasts for its own step size, or for the smallest one of all when its steps are dynamic. */
  ghost predicate CanShrink(c: Setup, q: nat, small: int)
    requires Valid(c)
  {
    && q < |c.period| && 0 < small < c.period[q]
    && (DynamicEnabled(c.mode, q) ==> forall j | 0 <= j < |c.period| :: small < c.period[j])
  }

  /** The first announcement is the begin of time with the step size of the setup. */
  ghost predicate Opens(c: Setup, nd: Node, i: nat)
    requires Valid(c) && i < |c.period|
  {
    var a := Announced(nd.log);
    && nd.times.dynamic == DynamicEnabled(c.mode, i)
    && (if a == [] then nd.times.next.duration == c.period[i] else a[0] == Task(0, c.period[i]))
  }

  ghost predicate OpenInv(c: Setup, nodes: seq<Node>) {
    Valid(c) && |nodes| == |c.period| && forall i | 0 <= i < |nodes| :: Opens(c, nodes[i], i)
  }

  lemma StepKeepsOpen(c: Setup, s: State, a: Action)
    requires Inv(s) && Enabled(s, a) && OpenInv(c, s.nodes)
    ensures OpenInv(c, Apply(s, a).nodes)
  {
    forall i | 0 <= i < |s.nodes|
      ensures |Apply(s, a).nodes| == |s.nodes| && Opens(c, Apply(s, a).nodes[i], i)
    {
      assert NodeSound(s.nodes[i]);
      Effect(s, a, i);
    }
  }

  lemma {:induction false} RunOpens(c: Setup, ss: seq<State>, acts: seq<Action>, k: nat)
    requires Run(c, ss, acts) && k < |ss|
    ensures OpenInv(c, ss[k].nodes)
    decreases k
  {
    if k == 0 {
    } else {
      RunOpens(c, ss, acts, k - 1);
      RunInv(c, ss, acts, k - 1);
      assert Step(ss[k - 1], acts[k - 1], ss[k]);
      StepKeepsOpen(c, ss[k - 1], acts[k - 1]);
    }
  }

  /** A first step is never longer than the step sizes of the setup allow. */
  lemma FirstStepBounded(c: Setup, s: State, q: nat, small: int)
    requires Inv(s) && AlignInv(s.nodes) && OpenInv(c, s.nodes) && In(s, q)
    requires s.nodes[q].executing && s.nodes[q].times.current.timePoint == 0
    requires 0 < small < s.nodes[q].times.current.duration
    ensures CanShrink(c, q, small)
  {
    var nd := s.nodes[q];
    assert NodeSound(nd) && Opens(c, nd, q);
    var a := Announced(nd.log);
    if |a| > 1 {
      ChainAscends(a, nd.times.dynamic, 0, |a| - 1);
    }
    if nd.times.dynamic {
      forall j | 0 <= j < |s.nodes| && j != q ensures small < c.period[j] {
        KnownAnnounced(s.nodes, q, j);
        assert Opens(c, s.nodes[j], j) && NotJumped(Announced(s.nodes[j].log)[0], 0, nd.times.next.timePoint);
      }
    }
  }

  /** Behind every abort there is a handler that shrank its first step. */
  lemma AbortNeedsShrinking(c: Setup, ss: seq<State>, acts: seq<Action>, k: nat) returns (q: nat, small: int)
    requires Run(c, ss, acts) && k < |ss| && ss[k].aborted
    ensures CanShrink(c, q, small) && Resize(q, small) in acts
  {
    if GentleStart(ss, acts) {
      GentleStartNeverAborts(c, ss, acts, k);
      assert false;
    }
    var m :| 0 <= m < |acts| && !Gentle(ss[m], acts[m]);
    q, small := acts[m].who, acts[m].duration;
    assert Step(ss[m], acts[m], ss[m + 1]);
    RunAligns(c, ss, acts, m);
    RunOpens(c, ss, acts, m);
    FirstStepBounded(c, ss[m], q, small);
  }

  lemma {:induction false} AloneNeverAborts(c: Setup, ss: seq<State>, acts: seq<Action>, k: nat)
    requires Run(c, ss, acts) && k < |ss| && |c.period| <= 1
    ensures !ss[k].aborted
    decreases k
  {
    if k == 0 {
    } else {
      AloneNeverAborts(c, ss, acts, k - 1);
      RunInv(c, ss, acts, k - 1);
      RunOpens(c, ss, acts, k - 1);
      assert Step(ss[k - 1], acts[k - 1], ss[k]);
      if acts[k - 1].Begin? {
        assert Shape(ss[k - 1].nodes[acts[k - 1].who], acts[k - 1].who, |c.period|);
      }
    }
  }

  /** In particular time passes: a run with a gentle start can always go on until any point is reached. */
  lemma GentleTimePasses(c: Setup, ss: seq<State>, acts: seq<Action>, T: int)
    returns (ss': seq<State>, acts': seq<Action>)
    requires Run(c, ss, acts) && GentleStart(ss, acts)
    ensures Run(c, ss', acts') && ss <= ss' && acts <= acts'
    ensures forall k | |acts| <= k < |acts'| :: Progress(ss'[k], acts'[k]) && Prompt(ss'[k], acts'[k])
    ensures !ss'[|acts'|].aborted && Reached(ss'[|acts'|], T)
  {
    ss', acts' := TimePasses(c, ss, acts, T);
    forall k | 0 <= k < |acts'| ensures Gentle(ss'[k], acts'[k]) {
      if k < |acts| {
        assert ss'[k] == ss[k] && acts'[k] == acts[k];
      } else {
        assert Progress(ss'[k], acts'[k]);
      }
    }
    GentleStartNeverAborts(c, ss', acts', |acts'|);
  }

  // ----- with two participants -----

  /** Before its first step, a participant knows nobody to be beyond time zero. */
  ghost predicate NobodyBeyond(nd: Node) {
    nd.times.current.timePoint < 0 ==> forall q | q in nd.times.others :: nd.times.others[q].timePoint <= 0
  }

  /** A participant that has not started holds the other one back before its first step. */
  lemma HeldBack(nodes: seq<Node>, p: nat, q: nat)
    requires NodesOk(nodes) && p < |nodes| && q < |nodes| && p != q && !nodes[p].started
    ensures View(nodes[q].log).timePoint <= 0
  {
    KnownAnnounced(nodes, q, p);
    assert NodeSound(nodes[p]) && NodeSound(nodes[q]);
    var a := Announced(nodes[q].log);
    if nodes[q].executing {
      NonNegative(a, nodes[q].times.dynamic, |a| - 1);
    } else if nodes[q].started {
      FirstStep(nodes[q]);
    }
  }

  /** What arrives while nothing is known of the sender is its first announcement. */
  lemma FirstArrives(nodes: seq<Node>, q: nat, p: nat)
    requires NodesOk(nodes) && p < |nodes| && q < |nodes| && p != q
    requires q < |nodes[p].seen| && nodes[p].seen[q] < |nodes[q].log| && nodes[q].log[nodes[p].seen[q]].Announce?
    requires q in nodes[p].times.others && nodes[p].times.others[q].timePoint < 0
    ensures nodes[q].log[nodes[p].seen[q]].task.timePoint == 0
  {
    var log, n := nodes[q].log, nodes[p].seen[q];
    assert LinkOk(nodes, p, q) && NodeSound(nodes[q]);
    AnnouncedPrefix(log, n);
    AnnouncedPrefix(log, n + 1);
    var a := Announced(log[..n]);
    if a != [] {
      NonNegative(Announced(log), nodes[q].times.dynamic, |a| - 1);
    }
    assert log[..n + 1] == log[..n] + [log[n]];
    AnnouncedAppend(log[..n], log[n]);
    assert Announced(log)[0] == Announced(log[..n + 1])[0] == log[n].task;
  }

  /** With one peer only, what arrives before the first step does not lie beyond time zero: as soon as the
      peer's first announcement is there, the step begins. */
  lemma ArrivesAtZero(s: State, q: nat, p: nat)
    requires Inv(s) && |s.nodes| == 2 && Enabled(s, Deliver(q, p)) && Prompt(s, Deliver(q, p))
    requires s.nodes[p].times.current.timePoint < 0 && s.nodes[q].log[s.nodes[p].seen[q]].Announce?
    ensures s.nodes[q].log[s.nodes[p].seen[q]].task.timePoint <= 0
  {
    var nd, log, n := s.nodes[p], s.nodes[q].log, s.nodes[p].seen[q];
    assert NodeSound(nd) && Shape(nd, p, 2) && LinkOk(s.nodes, p, q);
    if !nd.started {
      HeldBack(s.nodes, p, q);
      assert log[..n + 1] == log[..n] + [log[n]];
      AnnouncedAppend(log[..n], log[n]);
      ViewAscends(log, s.nodes[q].times.dynamic, n, n + 1);
    } else {
      var a := Announced(nd.log);
      NonNegative(a, nd.times.dynamic, |a| - 1);
      FirstStep(nd);
      assert nd.times.others[q].timePoint < 0;
      FirstArrives(s.nodes, q, p);
    }
  }

  lemma NobodyBeyondKept(s: State, a: Action, p: nat)
    requires Inv(s) && |s.nodes| == 2 && Enabled(s, a) && Prompt(s, a) && In(s, p) && NobodyBeyond(s.nodes[p])
    ensures |Apply(s, a).nodes| == |s.nodes| && NobodyBeyond(Apply(s, a).nodes[p])
  {
    assert NodeSound(s.nodes[p]);
    match a
    case Deliver(q, i) =>
      if i == p && s.nodes[q].log[s.nodes[p].seen[q]].Announce? && s.nodes[p].times.current.timePoint < 0 {
        ArrivesAtZero(s, q, p);
      }
    case Begin(i) =>
      if i == p {
        NonNegative(Announced(s.nodes[p].log), s.nodes[p].times.dynamic, |Announced(s.nodes[p].log)| - 1);
      }
    case _ =>
  }

  lemma {:induction false} PairNobodyBeyond(c: Setup, ss: seq<State>, acts: seq<Action>, k: nat)
    requires PromptRun(c, ss, acts) && |c.period| == 2 && k < |ss|
    ensures |ss[k].nodes| == 2 && NobodyBeyond(ss[k].nodes[0]) && NobodyBeyond(ss[k].nodes[1])
    decreases k
  {
    if k == 0 {
    } else {
      PairNobodyBeyond(c, ss, acts, k - 1);
      RunInv(c, ss, acts, k - 1);
      assert Step(ss[k - 1], acts[k - 1], ss[k]) && Prompt(ss[k - 1], acts[k - 1]);
      NobodyBeyondKept(ss[k - 1], acts[k - 1], 0);
      NobodyBeyondKept(ss[k - 1], acts[k - 1], 1);
    }
  }

  lemma NoHopOnAtZero(s: State, p: nat)
    requires Inv(s) && AlignInv(s.nodes) && Enabled(s, Begin(p)) && NobodyBeyond(s.nodes[p])
    ensures !HopOn(s.nodes[p].times)
  {
    HopOnExactly(s, p);
    assert Shape(s.nodes[p], p, |s.nodes|);
  }

  lemma NoAbortAtZero(s: State, a: Action)
    requires Inv(s) && AlignInv(s.nodes) && Enabled(s, a) && |s.nodes| == 2
    requires NobodyBeyond(s.nodes[0]) && NobodyBeyond(s.nodes[1])
    ensures !Apply(s, a).aborted
  {
    if a.Begin? {
      NoHopOnAtZero(s, a.who);
    }
  }

  /** Two participants that begin their steps promptly never abort, whatever their handlers do. */
  lemma {:induction false} PairNeverAborts(c: Setup, ss: seq<State>, acts: seq<Action>, k: nat)
    requires PromptRun(c, ss, acts) && |c.period| == 2 && k < |ss|
    ensures !ss[k].aborted
    decreases k
  {
    if k == 0 {
    } else {
      PairNeverAborts(c, ss, acts, k - 1);
      PairNobodyBeyond(c, ss, acts, k - 1);
      RunAligns(c, ss, acts, k - 1);
      assert Step(ss[k - 1], acts[k - 1], ss[k]);
      NoAbortAtZero(ss[k - 1], acts[k - 1]);
    }
  }

  // ----- with three, a run that aborts -----

  /** Started, and nothing done since. */
  ghost predicate Waits(c: Setup, nd: Node, i: nat)
    requires Valid(c) && i < |c.period|
  {
    nd.started && !nd.executing && nd.log == [Announce(Task(0, c.period[i]))]
  }

  ghost predicate AllWait(c: Setup, s: State)
    requires Valid(c)
  {
    && !s.aborted && |s.nodes| == |c.period|
    && forall i {:trigger s.nodes[i]} | 0 <= i < |s.nodes| :: Waits(c, s.nodes[i], i)
  }

  /** Participant i has received the first announcements of the first n participants, leaving out one. */
  ghost predicate HasHeard(s: State, i: nat, but: nat, n: nat)
    requires In(s, i)
  {
    n <= |s.nodes[i].seen| && forall j | 0 <= j < n && j != i && j != but :: s.nodes[i].seen[j] == 1
  }

  lemma {:induction false} StartAll(c: Setup, n: nat) returns (ss: seq<State>, acts: seq<Action>)
    requires Valid(c) && n <= |c.period|
    ensures PromptRun(c, ss, acts) && !ss[|acts|].aborted && |ss[|acts|].nodes| == |c.period|
    ensures forall i {:trigger ss[|acts|].nodes[i]} | 0 <= i < n :: Waits(c, ss[|acts|].nodes[i], i)
    ensures forall i {:trigger ss[|acts|].nodes[i]} | n <= i < |c.period| :: ss[|acts|].nodes[i] == InitialNode(c, i)
    ensures forall i {:trigger ss[|acts|].nodes[i]} | 0 <= i < |c.period| ::
              ss[|acts|].nodes[i].seen == InitialNode(c, i).seen
  {
    if n == 0 {
      ss, acts := [Initial(c)], [];
    } else {
      ss, acts := StartAll(c, n - 1);
      assert ss[|acts|].nodes[n - 1] == InitialNode(c, n - 1);
      ss, acts := Extend(c, ss, acts, Start(n - 1));
    }
  }

  /** What a waiting participant knows. */
  lemma WaitingKnows(c: Setup, s: State, i: nat)
    requires Inv(s) && Valid(c) && AllWait(c, s) && In(s, i)
    ensures s.nodes[i].times.current == UNKNOWN && s.nodes[i].times.next == Task(0, c.period[i])
    ensures |s.nodes[i].seen| == |s.nodes|
    ensures forall j: nat :: j in s.nodes[i].times.others <==> j < |s.nodes| && j != i
    ensures forall j | j in s.nodes[i].times.others ::
              s.nodes[i].times.others[j] == if s.nodes[i].seen[j] == 0 then UNKNOWN else Task(0, c.period[j])
  {
    var nd := s.nodes[i];
    assert NodeSound(nd) && Shape(nd, i, |s.nodes|) && Waits(c, nd, i);
    AnnouncedAppend([], nd.log[0]);
    assert [] + [nd.log[0]] == nd.log;
    forall j | j in nd.times.others
      ensures nd.times.others[j] == if nd.seen[j] == 0 then UNKNOWN else Task(0, c.period[j])
    {
      assert LinkOk(s.nodes, i, j) && Waits(c, s.nodes[j], j);
      var log := s.nodes[j].log;
      AnnouncedAppend([], log[0]);
      assert [] + [log[0]] == log == log[..1] && log[..0] == [];
    }
  }

  /** Whoever has not heard everybody cannot begin. */
  lemma UnheardHolds(c: Setup, s: State, i: nat, j: nat)
    requires Inv(s) && Valid(c) && AllWait(c, s) && In(s, i) && In(s, j) && i != j
    requires j < |s.nodes[i].seen| && s.nodes[i].seen[j] == 0
    ensures j in s.nodes[i].times.others && s.nodes[i].times.others[j] == UNKNOWN && Blocked(s.nodes[i].times)
  {
    WaitingKnows(c, s, i);
    assert j in s.nodes[i].times.others;
  }

  lemma HearOne(c: Setup, ss: seq<State>, acts: seq<Action>, i: nat, j: nat)
    returns (ss': seq<State>, acts': seq<Action>)
    requires PromptRun(c, ss, acts) && AllWait(c, ss[|acts|]) && i < |c.period| && j < |c.period| && i != j
    requires j < |ss[|acts|].nodes[i].seen| && ss[|acts|].nodes[i].seen[j] == 0
    ensures PromptRun(c, ss', acts') && AllWait(c, ss'[|acts'|])
    ensures ss'[|acts'|].nodes[i].seen == ss[|acts|].nodes[i].seen[j := 1]
    ensures forall k | 0 <= k < |c.period| && k != i :: ss'[|acts'|].nodes[k] == ss[|acts|].nodes[k]
  {
    var s := ss[|acts|];
    RunInv(c, ss, acts, |acts|);
    UnheardHolds(c, s, i, j);
    assert Waits(c, s.nodes[i], i) && Waits(c, s.nodes[j], j);
    ss', acts' := Extend(c, ss, acts, Deliver(j, i));
  }

  lemma {:induction false} HearAll(c: Setup, ss: seq<State>, acts: seq<Action>, i: nat, but: nat, n: nat)
    returns (ss': seq<State>, acts': seq<Action>)
    requires PromptRun(c, ss, acts) && AllWait(c, ss[|acts|]) && i < |c.period| && n <= |c.period|
    ensures PromptRun(c, ss', acts') && AllWait(c, ss'[|acts'|]) && HasHeard(ss'[|acts'|], i, but, n)
    ensures forall j | 0 <= j < |c.period| && j != i :: ss'[|acts'|].nodes[j] == ss[|acts|].nodes[j]
    ensures |ss'[|acts'|].nodes[i].seen| == |ss[|acts|].nodes[i].seen|
    ensures but < |ss[|acts|].nodes[i].seen| ==> ss'[|acts'|].nodes[i].seen[but] == ss[|acts|].nodes[i].seen[but]
    decreases n
  {
    if n == 0 {
      ss', acts' := ss, acts;
    } else {
      ss', acts' := HearAll(c, ss, acts, i, but, n - 1);
      var s := ss'[|acts'|];
      RunInv(c, ss', acts', |acts'|);
      assert Shape(s.nodes[i], i, |s.nodes|);
      if n - 1 != i && n - 1 != but {
        assert LinkOk(s.nodes, i, n - 1) && Waits(c, s.nodes[n - 1], n - 1);
        if s.nodes[i].seen[n - 1] == 0 {
          ss', acts' := HearOne(c, ss', acts', i, n - 1);
        }
      }
    }
  }

  lemma FirstStepLonger(c: Setup, s: State, q: nat, small: int)
    requires Inv(s) && Valid(c) && AllWait(c, s) && OpenInv(c, s.nodes) && In(s, q)
    requires HasHeard(s, q, q, |c.period|) && CanShrink(c, q, small)
    ensures MayBegin(s.nodes[q]) && !HopOn(s.nodes[q].times)
    ensures LengthOf(s.nodes[q].times) > small && s.nodes[q].times.next.timePoint == 0
  {
    WaitingKnows(c, s, q);
    var t := s.nodes[q].times;
    assert Opens(c, s.nodes[q], q);
    assert forall j | j in t.others :: t.others[j] == Task(0, c.period[j]);
    var len := LengthOf(t);
    if t.dynamic && len != t.next.duration {
      var k :| k in t.others && StopsAt(t.others[k], 0, len);
      assert len == c.period[k];
    }
  }

  /** q runs its first step, takes the smaller step size in it, and announces. */
  lemma Shrink(c: Setup, ss: seq<State>, acts: seq<Action>, q: nat, small: int)
    returns (ss': seq<State>, acts': seq<Action>, len: int)
    requires PromptRun(c, ss, acts) && AllWait(c, ss[|acts|]) && CanShrink(c, q, small)
    requires HasHeard(ss[|acts|], q, q, |c.period|)
    ensures PromptRun(c, ss', acts') && acts' == acts + [Begin(q), Resize(q, small), Complete(q)]
    ensures !ss'[|acts'|].aborted && len > small
    ensures q < |ss'[|acts'|].nodes| && ss'[|acts'|].nodes == ss[|acts|].nodes[q := ss'[|acts'|].nodes[q]]
    ensures ss'[|acts'|].nodes[q].log == ss[|acts|].nodes[q].log + [Announce(Task(len, small))]
  {
    var s := ss[|acts|];
    RunInv(c, ss, acts, |acts|);
    RunOpens(c, ss, acts, |acts|);
    FirstStepLonger(c, s, q, small);
    len := LengthOf(s.nodes[q].times);
    assert NodeSound(s.nodes[q]) && Waits(c, s.nodes[q], q);
    AnnouncedAppend([], s.nodes[q].log[0]);
    assert [] + [s.nodes[q].log[0]] == s.nodes[q].log;
    ss', acts' := Extend(c, ss, acts, Begin(q));
    ss', acts' := Extend(c, ss', acts', Resize(q, small));
    ss', acts' := Extend(c, ss', acts', Complete(q));
  }

  /** p has heard everybody but r. It receives q's second announcement before r's first one, which lets
      it begin, and takes the simulation for a running one. */
  lemma Provoke(c: Setup, ss: seq<State>, acts: seq<Action>, s: State, p: nat, q: nat, r: nat, len: int, small: int)
    returns (ss': seq<State>, acts': seq<Action>)
    requires PromptRun(c, ss, acts) && !ss[|acts|].aborted && len > small > 0
    requires Inv(s) && Valid(c) && AllWait(c, s) && In(s, p) && In(s, q) && In(s, r) && p != q && p != r && q != r
    requires HasHeard(s, p, r, |c.period|) && s.nodes[p].seen[r] == 0
    requires In(ss[|acts|], q) && ss[|acts|].nodes == s.nodes[q := ss[|acts|].nodes[q]]
    requires ss[|acts|].nodes[q].log == s.nodes[q].log + [Announce(Task(len, small))]
    ensures PromptRun(c, ss', acts') && acts' == acts + [Deliver(q, p), Deliver(r, p), Begin(p)]
    ensures ss'[|acts'|].aborted
  {
    WaitingKnows(c, s, p);
    UnheardHolds(c, s, p, r);
    assert Waits(c, s.nodes[q], q) && Waits(c, s.nodes[p], p) && Waits(c, s.nodes[r], r);
    ss', acts' := Extend(c, ss, acts, Deliver(q, p));
    var nd := ss'[|acts'|].nodes[p];
    assert nd.times.others == s.nodes[p].times.others[q := Task(len, small)];
    assert Blocked(nd.times) by {
      assert nd.times.others[r] == UNKNOWN;
    }
    ss', acts' := Extend(c, ss', acts', Deliver(r, p));
    nd := ss'[|acts'|].nodes[p];
    assert nd.times.others == s.nodes[p].times.others[q := Task(len, small)][r := Task(0, c.period[r])];
    assert HopOn(nd.times) by {
      assert nd.times.others[q].timePoint > nd.times.others[q].duration;
    }
    assert MayBegin(nd);
    ss', acts' := Extend(c, ss', acts', Begin(p));
  }

  /** With three or more participants, each shrinking of a first step can make every other participant
      abort the simulation, although all of them start at time zero and begin their steps promptly. */
  lemma ShrinkingCanAbort(c: Setup, p: nat, q: nat, small: int) returns (ss: seq<State>, acts: seq<Action>)
    requires Valid(c) && |c.period| >= 3 && p < |c.period| && p != q && CanShrink(c, q, small)
    ensures PromptRun(c, ss, acts) && ss[|acts|].aborted
    ensures |acts| >= 6 && acts[|acts| - 6..|acts| - 2] == [Begin(q), Resize(q, small), Complete(q), Deliver(q, p)]
    ensures acts[|acts| - 1] == Begin(p)
  {
    var r: nat := if p != 0 && q != 0 then 0 else if p != 1 && q != 1 then 1 else 2;
    ss, acts := StartAll(c, |c.period|);
    ss, acts := HearAll(c, ss, acts, p, r, |c.period|);
    ss, acts := HearAll(c, ss, acts, q, q, |c.period|);
    var s := ss[|acts|];
    RunInv(c, ss, acts, |acts|);
    var len: int;
    ss, acts, len := Shrink(c, ss, acts, q, small);
    ss, acts := Provoke(c, ss, acts, s, p, q, r, len, small);
  }

  /** The coordinated start of a simulation can go wrong exactly when it has three participants and one
      of them can shrink its first step. */
  lemma AbortsExactly(c: Setup)
    requires Valid(c)
    ensures (exists ss: seq<State>, acts: seq<Action> :: PromptRun(c, ss, acts) && ss[|acts|].aborted)
            <==> |c.period| >= 3 && exists q, small :: CanShrink(c, q, small)
  {
    if ss: seq<State>, acts: seq<Action> :| PromptRun(c, ss, acts) && ss[|acts|].aborted {
      var q, small := AbortNeedsShrinking(c, ss, acts, |acts|);
      if |c.period| <= 1 {
        AloneNeverAborts(c, ss, acts, |acts|);
        assert false;
      } else if |c.period| == 2 {
        PairNeverAborts(c, ss, acts, |acts|);
        assert false;
      }
    }
    if q: nat, small: int :| |c.period| >= 3 && CanShrink(c, q, small) {
      var ss, acts := ShrinkingCanAbort(c, if q == 0 then 1 else 0, q, small);
    }
  }
}
