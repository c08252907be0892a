/** A barrier: threads that enter are held back until the expected number has entered, or a timeout
    makes them throw. Every step that takes the mutex, tests or notifies is a step of its own. */
module Barrier {
  import opened Basics

  datatype Thread =
    | Idle | Locking | Counting
    | Broadcasting         // has made the count reach the expected number, will notify all
    | Testing | Asleep | Relocking
    | TimedOut | LastTest  // the predicate is evaluated once more after a timeout
    | Returned | Threw

  datatype Barrier = Barrier(expected: nat, have: nat, mutex: Option<nat>, threads: seq<Thread>)

  datatype Act =
    | Next(i: nat)     // thread i takes its next step
    | Wake(i: nat)     // spurious
    | Timeout(i: nat)

  predicate Enabled(b: Barrier, a: Act) {
    && a.i < |b.threads|
    && match a
       case Next(i) =>
         && (match b.threads[i]
             case Locking => b.mutex.None?
             case Relocking => b.mutex.None?
             case TimedOut => b.mutex.None?
             case _ => true)
         && b.threads[i] != Asleep && b.threads[i] != Returned && b.threads[i] != Threw
       case Wake(i) => b.threads[i] == Asleep
       case Timeout(i) => b.threads[i] == Asleep
  }

  function Apply(b: Barrier, a: Act): Barrier
    requires Enabled(b, a)
  {
    match a
    case Next(i) => Step(b, i)
    case Wake(i) => Moves(b, i, Relocking)
    case Timeout(i) => Moves(b, i, TimedOut)
  }

  function Step(b: Barrier, i: nat): Barrier
    requires Enabled(b, Next(i))
  {
    match b.threads[i]
    case Idle => Moves(b, i, Locking)
    case Locking => Moves(b, i, Counting).(mutex := Some(i))
    case Counting =>
      if b.have + 1 >= b.expected then Moves(b, i, Broadcasting).(have := b.have + 1, mutex := None)
      else Moves(b, i, Testing).(have := b.have + 1)
    case Broadcasting => Moves(b.(threads := Notified(b.threads)), i, Returned)
    case Testing =>
      if b.have == b.expected then Moves(b, i, Returned).(mutex := None)
      else Moves(b, i, Asleep).(mutex := None)
    case Relocking => Moves(b, i, Testing).(mutex := Some(i))
    case TimedOut => Moves(b, i, LastTest).(mutex := Some(i))
    case LastTest => Moves(b, i, if b.have == b.expected then Returned else Threw).(mutex := None)
  }

  function Moves(b: Barrier, i: nat, t: Thread): Barrier
    requires i < |b.threads|
  {
    b.(threads := b.threads[i := t])
  }

  function Notified(threads: seq<Thread>): (r: seq<Thread>)
    ensures |r| == |threads|
    ensures forall i | 0 <= i < |threads| :: r[i] == if threads[i] == Asleep then Relocking else threads[i]
  {
    seq(|threads|, i requires 0 <= i < |threads| => if threads[i] == Asleep then Relocking else threads[i])
  }

  function Initial(entrants: nat, expected: nat): Barrier {
    Barrier(expected, 0, None, seq(entrants, _ => Idle))
  }

  ghost predicate Run(entrants: nat, expected: nat, bs: seq<Barrier>, acts: seq<Act>) {
    && |bs| == |acts| + 1 && bs[0] == Initial(entrants, expected)
    && forall k | 0 <= k < |acts| :: IsStep(bs[k], acts[k], bs[k + 1])
  }

  ghost predicate IsStep(b: Barrier, a: Act, b': Barrier) {
    Enabled(b, a) && b' == Apply(b, a)
  }

  // ----- the count -----

  predicate IsIn(t: Thread) { t != Idle && t != Locking && t != Counting }

  /** How many threads have been counted. */
  function Entered(threads: seq<Thread>): (n: nat)
    ensures n <= |threads|
  {
    if threads == [] then 0
    else Entered(threads[..|threads| - 1]) + (if IsIn(threads[|threads| - 1]) then 1 else 0)
  }

  lemma {:induction false} EnteredUpdate(threads: seq<Thread>, i: nat, t: Thread)
    requires i < |threads|
    ensures Entered(threads[i := t])
            == Entered(threads) - (if IsIn(threads[i]) then 1 else 0) + (if IsIn(t) then 1 else 0)
    decreases |threads|
  {
    var n := |threads| - 1;
    if i < n {
      assert threads[i := t][..n] == threads[..n][i := t];
      EnteredUpdate(threads[..n], i, t);
    } else {
      assert threads[i := t][..n] == threads[..n];
    }
  }

  lemma {:induction false} EnteredNotified(threads: seq<Thread>)
    ensures Entered(Notified(threads)) == Entered(threads)
    decreases |threads|
  {
    if threads == [] {
    } else {
      var n := |threads| - 1;
      assert Notified(threads)[..n] == Notified(threads[..n]);
      EnteredNotified(threads[..n]);
    }
  }

  /** Somebody is not counted yet as long as not all have entered. */
  lemma {:induction false} SomebodyMissing(threads: seq<Thread>, i: nat)
    requires i < |threads| && !IsIn(threads[i])
    ensures Entered(threads) < |threads|
    decreases |threads|
  {
    var n := |threads| - 1;
    if i == n {
    } else {
      assert threads[..n][i] == threads[i];
      SomebodyMissing(threads[..n], i);
    }
  }

  // ----- the invariant -----

  predicate Owns(t: Thread) { t == Counting || t == Testing || t == LastTest }

  ghost predicate Counted(b: Barrier) { b.have == Entered(b.threads) }

  ghost predicate Owned(b: Barrier) {
    && (b.mutex.Some? ==> b.mutex.value < |b.threads|)
    && forall i | 0 <= i < |b.threads| :: Owns(b.threads[i]) <==> b.mutex == Some(i)
  }

  ghost predicate Full(b: Barrier) {
    forall i | 0 <= i < |b.threads| :: b.threads[i] == Returned || b.threads[i] == Broadcasting ==> b.have >= b.expected
  }

  ghost predicate Broadcaster(b: Barrier) {
    exists i :: 0 <= i < |b.threads| && b.threads[i] == Broadcasting
  }

  /** While a thread sleeps at a barrier that is exactly full, a notification is still to come. */
  ghost predicate Announced(b: Barrier) {
    b.have == b.expected && Asleep in b.threads ==> Broadcaster(b)
  }

  ghost predicate Inv(b: Barrier) { Counted(b) && Owned(b) && Full(b) && Announced(b) }

  lemma CountedKept(b: Barrier, a: Act)
    requires Counted(b) && Enabled(b, a)
    ensures Counted(Apply(b, a))
  {
    EnteredNotified(b.threads);
    match a
    case Next(i) =>
      EnteredUpdate(b.threads, i, Step(b, i).threads[i]);
      EnteredUpdate(Notified(b.threads), i, Returned);
    case Wake(i) => EnteredUpdate(b.threads, i, Relocking);
    case Timeout(i) => EnteredUpdate(b.threads, i, TimedOut);
  }

  lemma OwnedKept(b: Barrier, a: Act)
    requires Owned(b) && Enabled(b, a)
    ensures Owned(Apply(b, a))
  {}

  lemma FullKept(b: Barrier, a: Act)
    requires Full(b) && Enabled(b, a)
    ensures Full(Apply(b, a))
  {}

  lemma AnnouncedKept(b: Barrier, a: Act)
    requires Announced(b) && Enabled(b, a)
    ensures Announced(Apply(b, a))
  {
    var b' := Apply(b, a);
    if a == Next(a.i) && b.threads[a.i] == Broadcasting {
      assert Asleep !in b'.threads;
    } else if b'.have == b'.expected && Asleep in b'.threads {
      var i := a.i;
      if b.threads[i] == Counting {
        assert b'.threads[i] == Broadcasting;
      } else {
        assert b'.threads[i] != Asleep;
        assert Asleep in b.threads;
        var j :| 0 <= j < |b.threads| && b.threads[j] == Broadcasting;
        assert b'.threads[j] == Broadcasting;
      }
    }
  }

  lemma StepKeepsInv(b: Barrier, a: Act, b': Barrier)
    requires Inv(b) && IsStep(b, a, b')
    ensures Inv(b')
  {
    CountedKept(b, a);
    OwnedKept(b, a);
    FullKept(b, a);
    AnnouncedKept(b, a);
  }

  lemma InitialInv(entrants: nat, expected: nat)
    ensures Inv(Initial(entrants, expected))
  {
    NobodyEntered(Initial(entrants, expected).threads);
  }

  lemma {:induction false} NobodyEntered(threads: seq<Thread>)
    requires forall i | 0 <= i < |threads| :: threads[i] == Idle
    ensures Entered(threads) == 0
    decreases |threads|
  {
    if threads == [] {
    } else {
      NobodyEntered(threads[..|threads| - 1]);
    }
  }

  lemma {:induction false} RunInv(entrants: nat, expected: nat, bs: seq<Barrier>, acts: seq<Act>, k: nat)
    requires Run(entrants, expected, bs, acts) && k < |bs|
    ensures Inv(bs[k]) && bs[k].expected == expected && |bs[k].threads| == entrants
    decreases k
  {
    if k == 0 {
      InitialInv(entrants, expected);
    } else {
      RunInv(entrants, expected, bs, acts, k - 1);
      assert IsStep(bs[k - 1], acts[k - 1], bs[k]);
      StepKeepsInv(bs[k - 1], acts[k - 1], bs[k]);
    }
  }

  // ----- every run -----

  /** Nobody passes before the expected number of threads has entered, and no more are counted than
      have entered. */
  lemma NobodyPassesEarly(entrants: nat, expected: nat, bs: seq<Barrier>, acts: seq<Act>, k: nat, i: nat)
    requires Run(entrants, expected, bs, acts) && k < |bs| && i < entrants
    ensures |bs[k].threads| == entrants && bs[k].have == Entered(bs[k].threads) <= entrants
    ensures bs[k].threads[i] == Returned ==> bs[k].have >= expected
  {
    RunInv(entrants, expected, bs, acts, k);
  }

  /** How far the threads are from leaving a full barrier. */
  function Rank(threads: seq<Thread>): nat {
    if threads == [] then 0 else Rank(threads[..|threads| - 1]) + ThreadRank(threads[|threads| - 1])
  }

  function ThreadRank(t: Thread): nat {
    match t
    case Returned => 0
    case Threw => 0
    case Asleep => 3
    case Relocking => 2
    case TimedOut => 2
    case _ => 1
  }

  lemma {:induction false} RankUpdate(threads: seq<Thread>, i: nat, t: Thread)
    requires i < |threads|
    ensures Rank(threads[i := t]) == Rank(threads) - ThreadRank(threads[i]) + ThreadRank(t)
    decreases |threads|
  {
    var n := |threads| - 1;
    if i < n {
      assert threads[i := t][..n] == threads[..n][i := t];
      RankUpdate(threads[..n], i, t);
    } else {
      assert threads[i := t][..n] == threads[..n];
    }
  }

  lemma {:induction false} RankNotified(threads: seq<Thread>)
    ensures Rank(Notified(threads)) <= Rank(threads)
    decreases |threads|
  {
    if threads == [] {
    } else {
      var n := |threads| - 1;
      assert Notified(threads)[..n] == Notified(threads[..n]);
      RankNotified(threads[..n]);
    }
  }

  predicate Gone(t: Thread) { t == Returned || t == Threw }

  /** Once all of the expected threads have entered, the barrier empties: whatever happens brings the
      threads closer to leaving, nobody throws any more, and until all have left some thread can move
      without a timeout and without a spurious wakeup. */
  lemma FullBarrierEmpties(expected: nat, bs: seq<Barrier>, acts: seq<Act>, k: nat)
    requires Run(expected, expected, bs, acts) && k < |bs| && bs[k].have >= expected
    ensures bs[k].have == expected && |bs[k].threads| == expected
    ensures || (forall i | 0 <= i < expected :: Gone(bs[k].threads[i]))
            || exists i: nat :: i < expected && Enabled(bs[k], Next(i))
    ensures k < |acts| ==>
              && acts[k].i < expected
              && Rank(bs[k + 1].threads) < Rank(bs[k].threads)
              && bs[k + 1].threads[acts[k].i] != Threw
  {
    RunInv(expected, expected, bs, acts, k);
    var b := bs[k];
    forall i | 0 <= i < expected ensures IsIn(b.threads[i]) {
      if !IsIn(b.threads[i]) {
        SomebodyMissing(b.threads, i);
      }
    }
    if i :| 0 <= i < expected && !Gone(b.threads[i]) {
      SomebodyMoves(b, i);
    }
    if k < |acts| {
      RunInv(expected, expected, bs, acts, k + 1);
      assert IsStep(bs[k], acts[k], bs[k + 1]);
      EveryActionHelps(b, acts[k]);
    }
  }

  lemma SomebodyMoves(b: Barrier, i: nat)
    requires Inv(b) && b.have == b.expected && i < |b.threads| && !Gone(b.threads[i])
    requires forall i | 0 <= i < |b.threads| :: IsIn(b.threads[i])
    ensures exists j: nat :: j < |b.threads| && Enabled(b, Next(j))
  {
    if b.threads[i] == Asleep {
      var j :| 0 <= j < |b.threads| && b.threads[j] == Broadcasting;
      assert Enabled(b, Next(j));
    } else if b.mutex.None? || b.threads[i] == Broadcasting || Owns(b.threads[i]) {
      assert Enabled(b, Next(i));
    } else {
      assert Owns(b.threads[b.mutex.value]);
      assert Enabled(b, Next(b.mutex.value));
    }
  }

  lemma StepHelps(b: Barrier, i: nat)
    requires Enabled(b, Next(i)) && b.have == b.expected && IsIn(b.threads[i]) && b.threads[i] != Broadcasting
    ensures Rank(Step(b, i).threads) < Rank(b.threads)
    ensures Step(b, i).threads[i] != Threw
  {
    RankUpdate(b.threads, i, Step(b, i).threads[i]);
  }

  lemma BroadcastHelps(b: Barrier, i: nat)
    requires i < |b.threads| && b.threads[i] == Broadcasting
    ensures Rank(Step(b, i).threads) < Rank(b.threads)
    ensures Step(b, i).threads[i] == Returned
  {
    RankNotified(b.threads);
    RankUpdate(Notified(b.threads), i, Returned);
  }

  lemma EveryActionHelps(b: Barrier, a: Act)
    requires Enabled(b, a) && b.have == b.expected && IsIn(b.threads[a.i])
    ensures Rank(Apply(b, a).threads) < Rank(b.threads)
    ensures Apply(b, a).threads[a.i] != Threw
  {
    match a
    case Next(i) =>
      if b.threads[i] == Broadcasting {
        BroadcastHelps(b, i);
      } else {
        StepHelps(b, i);
      }
    case Wake(i) => RankUpdate(b.threads, i, Relocking);
    case Timeout(i) => RankUpdate(b.threads, i, TimedOut);
  }

  // ----- more entrants than expected -----

  /** A thread throws although the expected number of threads has entered. */
  ghost predicate ThrowsLate(bs: seq<Barrier>, acts: seq<Act>, k: nat)
    requires k < |acts| && |bs| == |acts| + 1
  {
    && acts[k].i < |bs[k].threads| == |bs[k + 1].threads|
    && bs[k].have >= bs[k].expected
    && bs[k].threads[acts[k].i] != Threw && bs[k + 1].threads[acts[k].i] == Threw
  }

  ghost predicate CanThrowLate(entrants: nat, expected: nat) {
    exists bs, acts :: Run(entrants, expected, bs, acts) && LateThrow(bs, acts)
  }

  ghost predicate LateThrow(bs: seq<Barrier>, acts: seq<Act>)
    requires |bs| == |acts| + 1
  {
    exists k: nat :: k < |acts| && ThrowsLate(bs, acts, k)
  }

  lemma Extend(entrants: nat, expected: nat, bs: seq<Barrier>, acts: seq<Act>, a: Act)
    requires Run(entrants, expected, bs, acts) && Enabled(bs[|acts|], a)
    ensures Run(entrants, expected, bs + [Apply(bs[|acts|], a)], acts + [a])
  {
    var bs', acts' := bs + [Apply(bs[|acts|], a)], acts + [a];
    forall k | 0 <= k < |acts'| ensures IsStep(bs'[k], acts'[k], bs'[k + 1]) {
      if k < |acts| {
        assert IsStep(bs[k], acts[k], bs[k + 1]);
      }
    }
  }

  /** A run goes on with a planned piece. */
  lemma {:induction false} ExtendBy(entrants: nat, expected: nat, bs: seq<Barrier>, acts: seq<Act>, plan: seq<Act>,
                                    states: seq<Barrier>)
    returns (bs': seq<Barrier>, acts': seq<Act>)
    requires Run(entrants, expected, bs, acts)
    requires |states| == |plan| + 1 && states[0] == bs[|acts|]
    requires forall k | 0 <= k < |plan| :: IsStep(states[k], plan[k], states[k + 1])
    ensures Run(entrants, expected, bs', acts') && |acts'| == |acts| + |plan|
    ensures bs'[|acts'|] == states[|plan|]
    ensures plan != [] ==> acts'[|acts'| - 1] == plan[|plan| - 1] && bs'[|acts'| - 1] == states[|plan| - 1]
    decreases |plan|
  {
    if plan == [] {
      bs', acts' := bs, acts;
    } else {
      var n := |plan| - 1;
      bs', acts' := ExtendBy(entrants, expected, bs, acts, plan[..n], states[..n + 1]);
      assert IsStep(states[n], plan[n], states[n + 1]);
      Extend(entrants, expected, bs', acts', plan[n]);
      bs', acts' := bs' + [states[n + 1]], acts' + [plan[n]];
    }
  }

  /** The first m threads sleep, the others have not entered. */
  function Sleepers(entrants: nat, expected: nat, m: nat): Barrier {
    Barrier(expected, m, None, seq(entrants, i => if i < m then Asleep else Idle))
  }

  lemma {:induction false} SleepersRun(entrants: nat, expected: nat, m: nat)
    returns (bs: seq<Barrier>, acts: seq<Act>)
    requires m < expected && m <= entrants
    ensures Run(entrants, expected, bs, acts) && bs[|acts|] == Sleepers(entrants, expected, m)
    decreases m
  {
    if m == 0 {
      bs, acts := [Initial(entrants, expected)], [];
      assert Sleepers(entrants, expected, 0).threads == Initial(entrants, expected).threads;
    } else {
      bs, acts := SleepersRun(entrants, expected, m - 1);
      var i := m - 1;
      var s0 := Sleepers(entrants, expected, i);
      var s1 := Apply(s0, Next(i));
      var s2 := Apply(s1, Next(i));
      var s3 := Apply(s2, Next(i));
      var s4 := Apply(s3, Next(i));
      bs, acts := ExtendBy(entrants, expected, bs, acts, [Next(i), Next(i), Next(i), Next(i)], [s0, s1, s2, s3, s4]);
      assert s4.threads == Sleepers(entrants, expected, m).threads;
    }
  }

  /** The last expected thread has entered and is about to notify. */
  lemma FillRun(entrants: nat, expected: nat) returns (bs: seq<Barrier>, acts: seq<Act>)
    requires 2 <= expected <= entrants
    ensures Run(entrants, expected, bs, acts)
    ensures var b := bs[|acts|];
            && b.expected == b.have == expected && b.mutex == None && |b.threads| == entrants
            && b.threads[0] == Asleep && forall i | expected <= i < entrants :: b.threads[i] == Idle
  {
    bs, acts := SleepersRun(entrants, expected, expected - 1);
    var i := expected - 1;
    var s0 := Sleepers(entrants, expected, i);
    var s1 := Apply(s0, Next(i));
    var s2 := Apply(s1, Next(i));
    var s3 := Apply(s2, Next(i));
    assert s3.threads == s0.threads[i := Broadcasting];
    bs, acts := ExtendBy(entrants, expected, bs, acts, [Next(i), Next(i), Next(i)], [s0, s1, s2, s3]);
  }

  /** One more thread enters before it notifies. */
  lemma OneMoreRun(entrants: nat, expected: nat) returns (bs: seq<Barrier>, acts: seq<Act>)
    requires 2 <= expected < entrants
    ensures Run(entrants, expected, bs, acts)
    ensures var b := bs[|acts|];
            && b.expected == expected && b.have == expected + 1 && b.mutex == None
            && |b.threads| == entrants && b.threads[0] == Asleep
  {
    bs, acts := FillRun(entrants, expected);
    var j := expected;
    var s0 := bs[|acts|];
    var s1 := Apply(s0, Next(j));
    var s2 := Apply(s1, Next(j));
    var s3 := Apply(s2, Next(j));
    assert s3.threads == s0.threads[j := Broadcasting];
    bs, acts := ExtendBy(entrants, expected, bs, acts, [Next(j), Next(j), Next(j)], [s0, s1, s2, s3]);
  }

  /** The first waiter then times out, finds the count past the expected number, and throws. */
  lemma OneTooMany(entrants: nat, expected: nat)
    requires 2 <= expected < entrants
    ensures CanThrowLate(entrants, expected)
  {
    var bs, acts := OneMoreRun(entrants, expected);
    var s0 := bs[|acts|];
    var s1 := Apply(s0, Timeout(0));
    var s2 := Apply(s1, Next(0));
    var s3 := Apply(s2, Next(0));
    bs, acts := ExtendBy(entrants, expected, bs, acts, [Timeout(0), Next(0), Next(0)], [s0, s1, s2, s3]);
    assert ThrowsLate(bs, acts, |acts| - 1);
  }

  /** With one expected thread, or none, nobody ever waits. */
  ghost predicate NobodyWaits(b: Barrier) {
    forall i | 0 <= i < |b.threads| ::
      b.threads[i] == Idle || b.threads[i] == Locking || b.threads[i] == Counting
      || b.threads[i] == Broadcasting || b.threads[i] == Returned
  }

  lemma {:induction false} NobodyWaitsInRun(entrants: nat, expected: nat, bs: seq<Barrier>, acts: seq<Act>, k: nat)
    requires Run(entrants, expected, bs, acts) && k < |bs| && expected <= 1
    ensures NobodyWaits(bs[k]) && bs[k].expected == expected
    decreases k
  {
    if k == 0 {
    } else {
      NobodyWaitsInRun(entrants, expected, bs, acts, k - 1);
      assert IsStep(bs[k - 1], acts[k - 1], bs[k]);
    }
  }

  /** A throw at a full barrier is possible exactly when more threads enter than were expected, unless
      nobody has to wait at all. */
  lemma ThrowsLateExactly(entrants: nat, expected: nat)
    ensures CanThrowLate(entrants, expected) <==> expected < entrants && expected >= 2
  {
    if expected < entrants && expected >= 2 {
      OneTooMany(entrants, expected);
    } else if CanThrowLate(entrants, expected) {
      var bs, acts :| Run(entrants, expected, bs, acts) && LateThrow(bs, acts);
      var k: nat :| k < |acts| && ThrowsLate(bs, acts, k);
      NeverLate(entrants, expected, bs, acts, k);
    }
  }

  lemma NeverLate(entrants: nat, expected: nat, bs: seq<Barrier>, acts: seq<Act>, k: nat)
    requires Run(entrants, expected, bs, acts) && k < |acts| && (entrants <= expected || expected <= 1)
    ensures !ThrowsLate(bs, acts, k)
  {
    RunInv(entrants, expected, bs, acts, k);
    if expected <= 1 {
      NobodyWaitsInRun(entrants, expected, bs, acts, k + 1);
    } else if bs[k].have >= expected {
      FullBarrierEmpties(expected, bs, acts, k);
    }
  }
}
