/** Pausing and continuing. A participant that pauses announces nothing and begins nothing until it
    continues. Seen from the network this only postpones what it does, unless it continues inside a
    step: then the next step is announced before this one is completed. */
module TimePause {
  import opened Basics
  import opened TimeModel
  import opened TimeSync
  import opened TimeSafety
  import opened TimeAlign
  import opened TimeProgress
  import opened TimeJoin

  /** Who is paused, and who has completed a step meanwhile without announcing the next one. The network
      sees the latter as still inside the step. */
  datatype World = World(net: State, held: seq<bool>, owed: seq<bool>)

  datatype Act = Net(action: Action) | Pause(who: nat) | Continue(who: nat)

  predicate Known(w: World, i: nat) {
    i < |w.net.nodes| == |w.held| == |w.owed|
  }

  ghost predicate CanTake(w: World, x: Act) {
    match x
    case Net(a) =>
      && Enabled(w.net, a)
      && (match a
          case Begin(i) => Known(w, i) && !w.held[i]
          case Resize(i, _) => Known(w, i) && !w.owed[i]
          case Publish(i, _) => Known(w, i) && !w.owed[i]
          case Complete(i) => Known(w, i)
          case _ => true)
    case Pause(i) => Known(w, i) && !w.net.aborted && w.net.nodes[i].started && !w.held[i]
    case Continue(i) => Known(w, i) && !w.net.aborted && w.net.nodes[i].started && w.held[i]
  }

  ghost function Take(w: World, x: Act): World
    requires CanTake(w, x)
  {
    match x
    case Net(a) =>
      if a.Complete? && w.held[a.who] then w.(owed := w.owed[a.who := w.net.nodes[a.who].executing])
      else w.(net := Apply(w.net, a))
    case Pause(i) => w.(held := w.held[i := true])
    case Continue(i) =>
      World(if Inside(w, i) then w.net.(nodes := w.net.nodes[i := Requested(w.net.nodes[i])])
            else Apply(w.net, Complete(i)),
            w.held[i := false], w.owed[i := false])
  }

  /** The participant's step has begun and is not completed. */
  predicate Inside(w: World, i: nat)
    requires Known(w, i)
  {
    w.net.nodes[i].executing && !w.owed[i]
  }

  /** It does not continue inside a step. */
  ghost predicate Careful(w: World, x: Act) {
    x.Continue? && Known(w, x.who) ==> !Inside(w, x.who)
  }

  /** As without pauses, except that a paused participant does not look for its next step. */
  ghost predicate PromptWhenFree(w: World, x: Act) {
    x.Net? && x.action.Deliver? && Known(w, x.action.to) && !w.held[x.action.to] ==> Prompt(w.net, x.action)
  }

  ghost function Unpaused(s: State): World {
    World(s, seq(|s.nodes|, _ => false), seq(|s.nodes|, _ => false))
  }

  ghost predicate PausingRun(c: Setup, ws: seq<World>, xs: seq<Act>) {
    && Valid(c) && |ws| == |xs| + 1 && ws[0] == Unpaused(Initial(c))
    && forall k | 0 <= k < |xs| :: Taken(ws[k], xs[k], ws[k + 1])
  }

  ghost predicate Taken(w: World, x: Act, w': World) {
    CanTake(w, x) && PromptWhenFree(w, x) && w' == Take(w, x)
  }

  ghost predicate CarefulRun(c: Setup, ws: seq<World>, xs: seq<Act>) {
    PausingRun(c, ws, xs) && forall k {:trigger xs[k]} | 0 <= k < |xs| :: Careful(ws[k], xs[k])
  }

  // ----- careful pausing is invisible -----

  /** What one action is for the network: an action of it, or nothing. */
  ghost function Seen(w: World, x: Act): Option<Action>
    requires CanTake(w, x)
  {
    match x
    case Net(a) => if a.Complete? && w.held[a.who] then None else Some(a)
    case Pause(_) => None
    case Continue(i) => Some(Complete(i))
  }

  lemma SeenMeans(w: World, x: Act)
    requires CanTake(w, x) && Careful(w, x)
    ensures match Seen(w, x)
            case None => Take(w, x).net == w.net
            case Some(a) => Enabled(w.net, a) && Take(w, x).net == Apply(w.net, a) && (a.Resize? ==> x == Net(a))
  {}

  /** Every state of the network that careful pausing leads to is one that a run without pauses leads to. So
      everything proved about all runs holds with pauses. */
  lemma {:induction false} PausingIsInvisible(c: Setup, ws: seq<World>, xs: seq<Act>, k: nat)
    returns (ss: seq<State>, acts: seq<Action>)
    requires CarefulRun(c, ws, xs) && k < |ws|
    ensures Run(c, ss, acts) && ss[|acts|] == ws[k].net
    ensures forall a | a in acts && a.Resize? :: Net(a) in xs
    decreases k
  {
    if k == 0 {
      ss, acts := [Initial(c)], [];
    } else {
      ss, acts := PausingIsInvisible(c, ws, xs, k - 1);
      assert Taken(ws[k - 1], xs[k - 1], ws[k]) && Careful(ws[k - 1], xs[k - 1]);
      SeenMeans(ws[k - 1], xs[k - 1]);
      match Seen(ws[k - 1], xs[k - 1])
      case None =>
      case Some(a) => ss, acts := Extend(c, ss, acts, a);
    }
  }

  lemma CarefulIsSafe(c: Setup, ws: seq<World>, xs: seq<Act>, k: nat)
    requires CarefulRun(c, ws, xs) && k < |ws|
    ensures Inv(ws[k].net) && AlignInv(ws[k].net.nodes)
    ensures SameTime(ws[k].net)
  {
    var ss, acts := PausingIsInvisible(c, ws, xs, k);
    RunAligns(c, ss, acts, |acts|);
    var s := ws[k].net;
    forall i, j | 0 <= i < |s.nodes| && 0 <= j < |s.nodes| && s.nodes[i].executing && s.nodes[j].executing
      ensures s.nodes[i].times.current.timePoint == s.nodes[j].times.current.timePoint
    {
      CommonTime(s, i, j);
    }
  }

  /** All participants that are inside a step are there at the same virtual time. */
  ghost predicate SameTime(s: State) {
    forall i, j | 0 <= i < |s.nodes| && 0 <= j < |s.nodes| && s.nodes[i].executing && s.nodes[j].executing ::
      s.nodes[i].times.current.timePoint == s.nodes[j].times.current.timePoint
  }

  // ----- runs with pauses -----

  lemma Further(c: Setup, ws: seq<World>, xs: seq<Act>, x: Act) returns (ws': seq<World>, xs': seq<Act>)
    requires PausingRun(c, ws, xs) && CanTake(ws[|xs|], x) && PromptWhenFree(ws[|xs|], x)
    ensures PausingRun(c, ws', xs') && ws'[|xs'|] == Take(ws[|xs|], x)
    ensures CarefulRun(c, ws, xs) && Careful(ws[|xs|], x) ==> CarefulRun(c, ws', xs')
  {
    ws', xs' := ws + [Take(ws[|xs|], x)], xs + [x];
    forall k | 0 <= k < |xs'| ensures Taken(ws'[k], xs'[k], ws'[k + 1]) {
      if k < |xs| {
        assert Taken(ws[k], xs[k], ws[k + 1]);
      }
    }
    if CarefulRun(c, ws, xs) && Careful(ws[|xs|], x) {
      forall k | 0 <= k < |xs'| ensures Careful(ws'[k], xs'[k]) {
        if k < |xs| {
          assert Careful(ws[k], xs[k]);
        }
      }
    }
  }

  /** A prompt run without pauses. */
  lemma {:induction false} WithoutPauses(c: Setup, ss: seq<State>, acts: seq<Action>, k: nat)
    returns (ws: seq<World>, xs: seq<Act>)
    requires PromptRun(c, ss, acts) && k < |ss|
    ensures CarefulRun(c, ws, xs) && ws[|xs|] == Unpaused(ss[k])
    decreases k
  {
    if k == 0 {
      ws, xs := [Unpaused(Initial(c))], [];
    } else {
      ws, xs := WithoutPauses(c, ss, acts, k - 1);
      assert Step(ss[k - 1], acts[k - 1], ss[k]) && Prompt(ss[k - 1], acts[k - 1]);
      ws, xs := Further(c, ws, xs, Net(acts[k - 1]));
    }
  }

  // ----- with pauses, two participants are enough to abort -----

  /** p pauses before q's second announcement arrives, and continues after it. */
  lemma PauseAndAbort(c: Setup, ws: seq<World>, xs: seq<Act>, s: State, p: nat, q: nat, len: int, small: int)
    returns (ws': seq<World>, xs': seq<Act>)
    requires CarefulRun(c, ws, xs) && !ws[|xs|].net.aborted && ws[|xs|] == Unpaused(ws[|xs|].net)
    requires len > small > 0
    requires Inv(s) && Valid(c) && AllWait(c, s) && In(s, p) && In(s, q) && p != q && HasHeard(s, p, p, |c.period|)
    requires In(ws[|xs|].net, q) && ws[|xs|].net.nodes == s.nodes[q := ws[|xs|].net.nodes[q]]
    requires ws[|xs|].net.nodes[q].log == s.nodes[q].log + [Announce(Task(len, small))]
    ensures CarefulRun(c, ws', xs') && ws'[|xs'|].net.aborted
  {
    WaitingKnows(c, s, p);
    assert Waits(c, s.nodes[q], q) && Waits(c, s.nodes[p], p);
    ws', xs' := Further(c, ws, xs, Pause(p));
    ws', xs' := Further(c, ws', xs', Net(Deliver(q, p)));
    var nd := ws'[|xs'|].net.nodes[p];
    assert nd.times.others == s.nodes[p].times.others[q := Task(len, small)];
    ws', xs' := Further(c, ws', xs', Continue(p));
    assert ws'[|xs'|].net.nodes[p] == nd.(started := true, executing := false);
    assert HopOn(nd.times) by {
      assert nd.times.others[q].timePoint > nd.times.others[q].duration;
    }
    assert MayBegin(nd);
    ws', xs' := Further(c, ws', xs', Net(Begin(p)));
  }

  lemma ShrinkingCanAbortPaused(c: Setup, p: nat, q: nat, small: int) returns (ws: seq<World>, xs: seq<Act>)
    requires Valid(c) && p < |c.period| && p != q && CanShrink(c, q, small)
    ensures CarefulRun(c, ws, xs) && ws[|xs|].net.aborted
  {
    var ss, acts := StartAll(c, |c.period|);
    ss, acts := HearAll(c, ss, acts, p, p, |c.period|);
    ss, acts := HearAll(c, ss, acts, q, q, |c.period|);
    var s := ss[|acts|];
    RunInv(c, ss, acts, |acts|);
    var len: int;
    ss, acts, len := Shrink(c, ss, acts, q, small);
    ws, xs := WithoutPauses(c, ss, acts, |acts|);
    ws, xs := PauseAndAbort(c, ws, xs, s, p, q, len, small);
  }

  /** With pauses a coordinated start can go wrong exactly when it has two participants and one of them
      can shrink its first step. */
  lemma AbortsExactlyPaused(c: Setup)
    requires Valid(c)
    ensures (exists ws: seq<World>, xs: seq<Act> :: CarefulRun(c, ws, xs) && ws[|xs|].net.aborted)
            <==> |c.period| >= 2 && exists q, small :: CanShrink(c, q, small)
  {
    if ws: seq<World>, xs: seq<Act> :| CarefulRun(c, ws, xs) && ws[|xs|].net.aborted {
      var ss, acts := PausingIsInvisible(c, ws, xs, |xs|);
      var q, small := AbortNeedsShrinking(c, ss, acts, |acts|);
      if |c.period| <= 1 {
        AloneNeverAborts(c, ss, acts, |acts|);
        assert false;
      }
    }
    if q: nat, small: int :| |c.period| >= 2 && CanShrink(c, q, small) {
      var ws, xs := ShrinkingCanAbortPaused(c, if q == 0 then 1 else 0, q, small);
    }
  }

  // ----- continuing inside a step -----

  /** p begins its first step, pauses and continues in it: the next step is announced all the same. */
  lemma EarlyAnnouncement(c: Setup, ws: seq<World>, xs: seq<Act>, p: nat)
    returns (ws': seq<World>, xs': seq<Act>)
    requires PausingRun(c, ws, xs) && Known(ws[|xs|], p) && ws[|xs|] == Unpaused(ws[|xs|].net)
    requires !ws[|xs|].net.aborted && MayBegin(ws[|xs|].net.nodes[p]) && !HopOn(ws[|xs|].net.nodes[p].times)
    requires Inv(ws[|xs|].net)
    ensures PausingRun(c, ws', xs')
    ensures var net := ws[|xs|].net;
            ws'[|xs'|] == Unpaused(net.(nodes := net.nodes[p := Requested(Begun(net.nodes[p]))]))
  {
    var net := ws[|xs|].net;
    ws', xs' := Further(c, ws, xs, Net(Begin(p)));
    ws', xs' := Further(c, ws', xs', Pause(p));
    ws', xs' := Further(c, ws', xs', Continue(p));
    assert ws'[|xs'|].net.nodes == net.nodes[p := Requested(Begun(net.nodes[p]))];
    assert ws'[|xs'|].held == Unpaused(net).held && ws'[|xs'|].owed == Unpaused(net).owed;
  }

  /** A participant with its own step size runs one step. */
  lemma OwnStep(c: Setup, ws: seq<World>, xs: seq<Act>, q: nat) returns (ws': seq<World>, xs': seq<Act>)
    requires PausingRun(c, ws, xs) && Known(ws[|xs|], q) && ws[|xs|] == Unpaused(ws[|xs|].net)
    requires !ws[|xs|].net.aborted && MayBegin(ws[|xs|].net.nodes[q]) && !HopOn(ws[|xs|].net.nodes[q].times)
    requires !ws[|xs|].net.nodes[q].times.dynamic
    ensures PausingRun(c, ws', xs') && !ws'[|xs'|].net.aborted && ws'[|xs'|] == Unpaused(ws'[|xs'|].net)
    ensures Known(ws'[|xs'|], q) && ws'[|xs'|].net.nodes == ws[|xs|].net.nodes[q := ws'[|xs'|].net.nodes[q]]
    ensures var nd, nd' := ws[|xs|].net.nodes[q], ws'[|xs'|].net.nodes[q];
            && nd'.times == Advanced(nd.times, nd.times.next.duration) && nd'.seen == nd.seen
            && nd'.started && !nd'.executing
  {
    ws', xs' := Further(c, ws, xs, Net(Begin(q)));
    ws', xs' := Further(c, ws', xs', Net(Complete(q)));
  }

  /** It receives the early announcement of p, which is still inside its step, and begins the next one. */
  lemma Overtaking(c: Setup, ws: seq<World>, xs: seq<Act>, p: nat, q: nat)
    returns (ws': seq<World>, xs': seq<Act>)
    requires PausingRun(c, ws, xs) && Known(ws[|xs|], p) && Known(ws[|xs|], q) && p != q
    requires ws[|xs|] == Unpaused(ws[|xs|].net) && !ws[|xs|].net.aborted
    requires var net := ws[|xs|].net;
             var mine, other := net.nodes[q], net.nodes[p];
             && mine.started && !mine.executing && other.executing
             && mine.times.next.timePoint > other.times.current.timePoint && mine.times.current.timePoint >= 0
             && mine.times.next.duration > 0
             && p < |mine.seen| && mine.seen[p] < |other.log| && other.log[mine.seen[p]].Announce?
             && p in mine.times.others && mine.times.others[p].timePoint < mine.times.next.timePoint
             && mine.times.next.timePoint <= other.log[mine.seen[p]].task.timePoint
             && forall j | j in mine.times.others :: j == p
    ensures PausingRun(c, ws', xs') && !SameTime(ws'[|xs'|].net)
  {
    var mine, other := ws[|xs|].net.nodes[q], ws[|xs|].net.nodes[p];
    assert Blocked(mine.times);
    ws', xs' := Further(c, ws, xs, Net(Deliver(p, q)));
    var nd := ws'[|xs'|].net.nodes[q];
    assert nd.times == mine.times.(others := nd.times.others) && forall j | j in nd.times.others :: j == p;
    assert !Blocked(nd.times) && MayBegin(nd);
    ws', xs' := Further(c, ws', xs', Net(Begin(q)));
    var net := ws'[|xs'|].net;
    assert net.nodes[p] == other && net.nodes[q].executing;
    assert net.nodes[q].times.current.timePoint != net.nodes[p].times.current.timePoint;
  }

  lemma InFirstStep(c: Setup, s: State, p: nat)
    requires Inv(s) && Valid(c) && AllWait(c, s) && OpenInv(c, s.nodes) && In(s, p)
    requires !DynamicEnabled(c.mode, p) && MayBegin(s.nodes[p])
    ensures var nd := Requested(Begun(s.nodes[p]));
            && nd.executing && nd.times.current.timePoint == 0
            && nd.log == s.nodes[p].log + [Announce(Task(c.period[p], c.period[p]))] && |nd.log| == 2
  {
    WaitingKnows(c, s, p);
    assert Waits(c, s.nodes[p], p) && Opens(c, s.nodes[p], p) && NodeSound(s.nodes[p]);
    AnnouncedAppend([], s.nodes[p].log[0]);
    assert [] + [s.nodes[p].log[0]] == s.nodes[p].log;
  }

  /** Two participants with own step sizes can be inside steps at different times if the slower one
      continues inside a step. */
  lemma ContinueInsideFails(c: Setup, p: nat, q: nat) returns (ws: seq<World>, xs: seq<Act>)
    requires Valid(c) && |c.period| == 2 && p < 2 && q < 2 && p != q && c.period[q] <= c.period[p]
    requires !DynamicEnabled(c.mode, p) && !DynamicEnabled(c.mode, q)
    ensures PausingRun(c, ws, xs) && !SameTime(ws[|xs|].net)
  {
    var ss, acts := StartAll(c, 2);
    ss, acts := HearAll(c, ss, acts, p, p, 2);
    ss, acts := HearAll(c, ss, acts, q, q, 2);
    var s := ss[|acts|];
    RunInv(c, ss, acts, |acts|);
    RunOpens(c, ss, acts, |acts|);
    ws, xs := WithoutPauses(c, ss, acts, |acts|);
    WaitingKnows(c, s, p);
    WaitingKnows(c, s, q);
    assert Waits(c, s.nodes[p], p) && Waits(c, s.nodes[q], q) && Opens(c, s.nodes[q], q);
    InFirstStep(c, s, p);
    ws, xs := EarlyAnnouncement(c, ws, xs, p);
    ws, xs := OwnStep(c, ws, xs, q);
    ws, xs := Overtaking(c, ws, xs, p, q);
  }

  /** All runs with pauses, or only those in which nobody continues inside a step. */
  ghost predicate Admitted(careful: bool, c: Setup, ws: seq<World>, xs: seq<Act>) {
    PausingRun(c, ws, xs) && (careful ==> CarefulRun(c, ws, xs))
  }

  /** Virtual time is common in all runs exactly when nobody continues inside a step. */
  lemma SameTimeExactly(careful: bool)
    ensures (forall c: Setup, ws: seq<World>, xs: seq<Act>, k: nat | Admitted(careful, c, ws, xs) && k < |ws| ::
               SameTime(ws[k].net))
            <==> careful
  {
    if careful {
      forall c: Setup, ws: seq<World>, xs: seq<Act>, k: nat | Admitted(careful, c, ws, xs) && k < |ws|
        ensures SameTime(ws[k].net)
      {
        CarefulIsSafe(c, ws, xs, k);
      }
    } else {
      var c := Setup([1, 1], [Some(false), Some(false)]);
      var ws, xs := ContinueInsideFails(c, 0, 1);
      assert Admitted(careful, c, ws, xs) && !SameTime(ws[|xs|].net);
    }
  }
}
