/** The step-size tests: a handler that records its steps and changes its own step size at given time
    points, and the checks made on what was recorded. */
module DynStepSizes {
  import opened TimeConfiguration
  import opened TimeModel

  datatype Step = Step(now: int, duration: int)

  // ----- one participant on its own -----

  predicate ValidChanges(size: int, changes: map<int, int>) {
    size > 0 && forall t | t in changes :: changes[t] > 0
  }

  /** The step size in force after the step at `now`. */
  function SizeAfter(now: int, size: int, changes: map<int, int>): int {
    if now in changes then changes[now] else size
  }

  /** What the handler records from the step at `now` on: a size registered in a step is the length of
      the step after it. */
  function Recorded(now: int, size: int, changes: map<int, int>, limit: int): (r: seq<Step>)
    requires ValidChanges(size, changes)
    decreases limit - now
  {
    if now >= limit then []
    else [Step(now, size)] + Recorded(now + size, SizeAfter(now, size, changes), changes, limit)
  }

  /** The test's run with a single participant, dynamic or not. */
  method RunSingle(dynamic: bool, initialStepSize: int, changes: map<int, int>, limit: int, ghost largest: int)
    returns (steps: seq<Step>)
    requires ValidChanges(initialStepSize, changes)
    requires initialStepSize <= largest && forall t | t in changes :: changes[t] <= largest
    requires limit >= 0 && limit + 2 * largest <= NS_MAX  // no sum leaves the 64-bit range
    ensures steps == Recorded(0, initialStepSize, changes, limit)
  {
    var configuration := new TimeConfiguration<nat>();
    configuration.SetDynamicStepSizeEnabled(dynamic);
    var r := configuration.SetStepDuration(initialStepSize);
    steps := [];
    while true
      invariant configuration.otherNextTasks == map[]
      invariant 0 <= configuration.myNextTask.timePoint
      invariant 0 < configuration.myNextTask.duration <= largest
      invariant configuration.myNextTask.timePoint <= limit + largest
      invariant Recorded(0, initialStepSize, changes, limit)
                == steps + Recorded(configuration.myNextTask.timePoint, configuration.myNextTask.duration, changes, limit)
      decreases limit - configuration.myNextTask.timePoint
    {
      var now, size := configuration.myNextTask.timePoint, configuration.myNextTask.duration;
      configuration.AdvanceTimeStep();
      assert configuration.currentTask == Task(now, size) && configuration.myNextTask == Task(now + size, size);
      if now >= limit {
        break;
      }
      steps := steps + [Step(now, configuration.currentTask.duration)];
      if now in changes {
        r := configuration.SetStepDuration(changes[now]);
      }
    }
  }

  /** The recorded steps cover the time up to the limit without gap or overlap, and a change takes
      effect in the step after the one that makes it. */
  lemma {:induction false} StepsTile(now: int, size: int, changes: map<int, int>, limit: int)
    requires ValidChanges(size, changes) && now < limit
    ensures var r := Recorded(now, size, changes, limit);
            && r != [] && r[0] == Step(now, size)
            && (forall k | 0 <= k < |r| :: r[k].now < limit && r[k].duration > 0)
            && (forall k | 0 < k < |r| :: r[k] == Step(r[k - 1].now + r[k - 1].duration,
                                                      SizeAfter(r[k - 1].now, r[k - 1].duration, changes)))
            && r[|r| - 1].now + r[|r| - 1].duration >= limit
    decreases limit - now
  {
    var rest := Recorded(now + size, SizeAfter(now, size, changes), changes, limit);
    var r := [Step(now, size)] + rest;
    if now + size < limit {
      StepsTile(now + size, SizeAfter(now, size, changes), changes, limit);
      forall k | 0 < k < |r|
        ensures r[k] == Step(r[k - 1].now + r[k - 1].duration, SizeAfter(r[k - 1].now, r[k - 1].duration, changes))
      {
        assert r[k] == rest[k - 1];
      }
    }
  }

  predicate Covers(s: Step, t: int) { s.now <= t < s.now + s.duration }

  /** Every point of time lies in exactly one of the recorded steps. */
  lemma {:induction false} CoveredOnce(now: int, size: int, changes: map<int, int>, limit: int, t: int)
    returns (k: nat)
    requires ValidChanges(size, changes) && now <= t < limit
    ensures k < |Recorded(now, size, changes, limit)| && Covers(Recorded(now, size, changes, limit)[k], t)
    ensures forall i | 0 <= i < |Recorded(now, size, changes, limit)| ::
              Covers(Recorded(now, size, changes, limit)[i], t) ==> i == k
    decreases limit - now
  {
    var next := SizeAfter(now, size, changes);
    var r, rest := Recorded(now, size, changes, limit), Recorded(now + size, next, changes, limit);
    NotBefore(now + size, next, changes, limit);
    assert r == [Step(now, size)] + rest;
    if t < now + size {
      k := 0;
    } else {
      k := CoveredOnce(now + size, next, changes, limit, t);
      k := k + 1;
    }
  }

  lemma {:induction false} NotBefore(now: int, size: int, changes: map<int, int>, limit: int)
    requires ValidChanges(size, changes)
    ensures forall k | 0 <= k < |Recorded(now, size, changes, limit)| :: Recorded(now, size, changes, limit)[k].now >= now
    decreases limit - now
  {
    if now >= limit {
    } else {
      NotBefore(now + size, SizeAfter(now, size, changes), changes, limit);
    }
  }

  // ----- the checks -----

  ghost predicate StepFits(steps: seq<Step>, duration: int, i: nat)
    requires i < |steps|
  {
    steps[i].duration == duration && (i > 0 ==> steps[i].now - steps[i - 1].now == duration)
  }

  ghost predicate Ascending(steps: seq<Step>, duration: int) {
    steps != [] && forall i | 0 <= i < |steps| :: StepFits(steps, duration, i)
  }

  /** An empty list ends the check at once. */
  method AssertAscendingStepsWithReferenceDuration(participants: seq<seq<Step>>, duration: int) returns (ok: bool)
    ensures ok <==> forall p | 0 <= p < |participants| :: Ascending(participants[p], duration)
  {
    ok := true;
    for p := 0 to |participants|
      invariant ok <==> forall q | 0 <= q < p :: Ascending(participants[q], duration)
    {
      var steps := participants[p];
      if steps == [] {
        return false;
      }
      var fits := true;
      for i := 0 to |steps|
        invariant fits <==> forall k | 0 <= k < i :: StepFits(steps, duration, k)
      {
        assert StepFits(steps, duration, i) <==>
               steps[i].duration == duration && (i > 0 ==> steps[i].now - steps[i - 1].now == duration);
        if steps[i].duration != duration {
          fits := false;
        }
        if i > 0 && steps[i].now - steps[i - 1].now != duration {
          fits := false;
        }
      }
      ok := ok && fits;
    }
  }

  method AssertAllStepsEqual(participants: seq<seq<Step>>) returns (ok: bool)
    ensures ok <==> forall p | 0 <= p < |participants| :: participants[p] == participants[0]
  {
    ok := true;
    var p := 1;
    while p < |participants|
      invariant 1 <= p
      invariant ok <==> forall q | 0 <= q < p && q < |participants| :: participants[q] == participants[0]
    {
      var reference, compared := participants[0], participants[p];
      if |reference| != |compared| {
        return false;
      }
      var same := true;
      for j := 0 to |reference|
        invariant same <==> reference[..j] == compared[..j]
      {
        assert reference[..j + 1] == reference[..j] + [reference[j]];
        assert compared[..j + 1] == compared[..j] + [compared[j]];
        if reference[j] != compared[j] {
          same := false;
        }
      }
      assert reference[..|reference|] == reference && compared[..|reference|] == compared;
      ok := ok && same;
      p := p + 1;
    }
  }

  ghost predicate Progression(steps: seq<Step>, duration: int, n: nat)
    requires 0 < n <= |steps|
  {
    forall k | 0 <= k < n :: steps[k] == Step(steps[0].now + k * duration, duration)
  }

  lemma {:induction false} FitsIsProgression(steps: seq<Step>, duration: int, n: nat)
    requires 0 < n <= |steps|
    ensures (forall i | 0 <= i < n :: StepFits(steps, duration, i)) <==> Progression(steps, duration, n)
    decreases n
  {
    if n == 1 {
      assert StepFits(steps, duration, 0) <==> steps[0].duration == duration;
    } else {
      FitsIsProgression(steps, duration, n - 1);
      OneFurther(n - 1, duration);
      assert Progression(steps, duration, n - 1) ==>
        (StepFits(steps, duration, n - 1) <==> steps[n - 1] == Step(steps[0].now + (n - 1) * duration, duration)) by {
        if Progression(steps, duration, n - 1) {
          assert steps[n - 2] == Step(steps[0].now + (n - 2) * duration, duration);
        }
      }
    }
  }

  /** Passing means to be an arithmetic progression of steps of one length. */
  lemma AscendingIsProgression(steps: seq<Step>, duration: int)
    ensures Ascending(steps, duration) <==> steps != [] && Progression(steps, duration, |steps|)
  {
    if steps != [] {
      FitsIsProgression(steps, duration, |steps|);
    }
  }

  lemma OneFurther(n: nat, duration: int)
    requires n > 0
    ensures n * duration == (n - 1) * duration + duration
  {}

  /** The run of one participant passes with its initial step size exactly when it has a step at all
      and none but its last step changes the size. */
  lemma AscendingExactly(size: int, changes: map<int, int>, limit: int)
    requires ValidChanges(size, changes)
    ensures var r := Recorded(0, size, changes, limit);
            Ascending(r, size) <==>
            limit > 0 && forall k | 0 <= k < |r| - 1 :: SizeAfter(r[k].now, size, changes) == size
  {
    var r := Recorded(0, size, changes, limit);
    if limit > 0 {
      StepsTile(0, size, changes, limit);
      if Ascending(r, size) {
        forall k | 0 <= k < |r| - 1 ensures SizeAfter(r[k].now, size, changes) == size {
          assert StepFits(r, size, k) && StepFits(r, size, k + 1);
        }
      }
      if forall k | 0 <= k < |r| - 1 :: SizeAfter(r[k].now, size, changes) == size {
        UnchangedFits(r, size, changes, |r|);
      }
    }
  }

  lemma {:induction false} UnchangedFits(r: seq<Step>, size: int, changes: map<int, int>, n: nat)
    requires 0 < n <= |r| && r[0].duration == size
    requires forall k | 0 < k < |r| :: r[k] == Step(r[k - 1].now + r[k - 1].duration,
                                                   SizeAfter(r[k - 1].now, r[k - 1].duration, changes))
    requires forall k | 0 <= k < |r| - 1 :: SizeAfter(r[k].now, size, changes) == size
    ensures forall i | 0 <= i < n :: StepFits(r, size, i)
    decreases n
  {
    if n == 1 {
    } else {
      UnchangedFits(r, size, changes, n - 1);
      assert StepFits(r, size, n - 2);
      assert StepFits(r, size, n - 1);
    }
  }
}
