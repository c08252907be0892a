/** Asynchronous steps that a second thread completes: the step handler (or, for a participant that
    waits for the others, the handler for "all other steps are completed") raises a flag under a
    mutex, and the thread waits for the flag with a timeout. Both note when steps start and complete. */
module CompletionThread {

  // ----- what is checked at the end -----

  class ParticipantData {
    var needsComplete: bool
    var running: bool
    var stepStarted: seq<int>
    var stepCompleted: seq<int>

    constructor ()
      ensures !needsComplete && running && stepStarted == [] && stepCompleted == []
    {
      needsComplete, running := false, true;
      stepStarted, stepCompleted := [], [];
    }

    method AssertValid() returns (ok: bool)
      ensures ok <==> !running && !needsComplete && Ordered(stepStarted, stepCompleted)
    {
      if running || needsComplete {
        return false;
      }
      var n := if |stepStarted| < |stepCompleted| then |stepStarted| else |stepCompleted|;
      for i := 0 to n
        invariant forall k | 0 <= k < i :: OrderedAt(stepStarted, stepCompleted, k)
      {
        if stepStarted[i] >= stepCompleted[i] {
          assert !OrderedAt(stepStarted, stepCompleted, i);
          return false;
        }
        if i + 1 < |stepStarted| && stepCompleted[i] >= stepStarted[i + 1] {
          assert !OrderedAt(stepStarted, stepCompleted, i);
          return false;
        }
      }
      return true;
    }

    method AssertTimestampsAlwaysOutsideStep(timestamps: seq<int>) returns (ok: bool)
      ensures ok <==> forall t | t in timestamps :: Outside(stepStarted, stepCompleted, t)
    {
      var n := if |stepStarted| < |stepCompleted| then |stepStarted| else |stepCompleted|;
      for i := 0 to n
        invariant forall k, t | 0 <= k < i && t in timestamps :: !(stepStarted[k] < t < stepCompleted[k])
      {
        for m := 0 to |timestamps|
          invariant forall j | 0 <= j < m :: !(stepStarted[i] < timestamps[j] < stepCompleted[i])
        {
          if stepStarted[i] < timestamps[m] < stepCompleted[i] {
            assert timestamps[m] in timestamps && !Outside(stepStarted, stepCompleted, timestamps[m]);
            return false;
          }
        }
      }
      return true;
    }
  }

  ghost predicate OrderedAt(started: seq<int>, completed: seq<int>, k: nat)
    requires k < |started| && k < |completed|
  {
    started[k] < completed[k] && (k + 1 < |started| ==> completed[k] < started[k + 1])
  }

  ghost predicate Ordered(started: seq<int>, completed: seq<int>) {
    forall k | 0 <= k < |started| && k < |completed| :: OrderedAt(started, completed, k)
  }

  ghost predicate Outside(started: seq<int>, completed: seq<int>, t: int) {
    forall k | 0 <= k < |started| && k < |completed| :: !(started[k] < t < completed[k])
  }

  /** Neighbours in order means that every step is over before any later one starts. */
  lemma {:induction false} OrderedThroughout(started: seq<int>, completed: seq<int>, i: nat, j: nat)
    requires Ordered(started, completed) && i < j < |started| <= |completed| + 1
    ensures started[i] < completed[i] < started[j]
    decreases j
  {
    assert OrderedAt(started, completed, j - 1);
    if i == j - 1 {
    } else {
      OrderedThroughout(started, completed, i, j - 1);
    }
  }

  // ----- the threads -----

  datatype Handler = HOut | HStamp | HLock | HSet | HUnlock | HNotify

  datatype Worker =
    | WAsk | WLock | WTest | WAsleep | WRelock | WTimedOut | WCheck | WClear | WStamp | WComplete | WUnlock
    | WEnded

  datatype Owner = Nobody | TheHandler | TheWorker

  datatype Completion = Completion(
    clock: int, started: seq<int>, completed: seq<int>, needsComplete: bool, running: bool,
    mutex: Owner, h: Handler, w: Worker,
    steps: int,    // steps begun
    ended: int,    // steps completed
    raised: bool)  // the flag has been, or is being, raised for the current step

  const START := Completion(0, [], [], false, true, Nobody, HOut, WAsk, 0, 0, false)

  datatype Act =
    | Invoke       // a step begins
    | Signal       // all other steps are completed
    | HandlerStep | WorkerStep
    | Wake         // a spurious wakeup
    | Timeout
    | StopHandler
    | Tick         // time passes

  /** Whether the step handler raises the flag itself, or the handler for "all other steps are
      completed", and how often that one is invoked in a step. */
  datatype Mode = AtOnce | OncePerStep | Repeatedly

  predicate Enabled(s: Completion, a: Act, mode: Mode) {
    match a
    case Invoke => s.running && s.h == HOut && s.steps == s.ended
    case Signal =>
      && s.running && s.h == HOut && s.steps == s.ended + 1
      && (mode == Repeatedly || (mode == OncePerStep && !s.raised))
    case HandlerStep => s.h != HOut && (s.h == HLock ==> s.mutex == Nobody)
    case WorkerStep =>
      && s.w != WEnded && s.w != WAsleep
      && (s.w == WLock || s.w == WRelock || s.w == WTimedOut ==> s.mutex == Nobody)
    case Wake => s.w == WAsleep
    case Timeout => s.w == WAsleep
    case StopHandler => s.h == HOut
    case Tick => true
  }

  function Apply(s: Completion, a: Act, mode: Mode): Completion
    requires Enabled(s, a, mode)
  {
    match a
    case Invoke => s.(h := HStamp, steps := s.steps + 1, raised := false)
    case Signal => s.(h := HLock, raised := true)
    case HandlerStep => HandlerNext(s, mode)
    case WorkerStep => WorkerNext(s, mode)
    case Wake => s.(w := WRelock)
    case Timeout => s.(w := WTimedOut)
    case StopHandler => s.(running := false)
    case Tick => s.(clock := s.clock + 1)
  }

  function HandlerNext(s: Completion, mode: Mode): Completion
    requires Enabled(s, HandlerStep, mode)
  {
    match s.h
    case HStamp =>
      s.(started := s.started + [s.clock], clock := s.clock + 1,
         h := if mode == AtOnce then HLock else HOut, raised := mode == AtOnce)
    case HLock => s.(mutex := TheHandler, h := HSet)
    case HSet => s.(needsComplete := true, h := HUnlock)
    case HUnlock => s.(mutex := Nobody, h := HNotify)
    case HNotify => s.(w := if s.w == WAsleep then WRelock else s.w, h := HOut)
  }

  function WorkerNext(s: Completion, mode: Mode): Completion
    requires Enabled(s, WorkerStep, mode)
  {
    match s.w
    case WAsk => s.(w := if s.running then WLock else WEnded)
    case WLock => s.(mutex := TheWorker, w := WTest)
    case WRelock => s.(mutex := TheWorker, w := WTest)
    case WTimedOut => s.(mutex := TheWorker, w := WCheck)
    case WTest => if s.needsComplete then s.(w := WCheck) else s.(mutex := Nobody, w := WAsleep)
    case WCheck => s.(w := if s.needsComplete then WClear else WUnlock)
    case WClear => s.(needsComplete := false, w := WStamp)
    case WStamp => s.(completed := s.completed + [s.clock], clock := s.clock + 1, w := WComplete)
    case WComplete => s.(ended := s.steps, w := WUnlock)  // no effect if no step is open
    case WUnlock => s.(mutex := Nobody, w := WAsk)
  }

  ghost predicate Step(mode: Mode, s: Completion, a: Act, s': Completion) {
    Enabled(s, a, mode) && s' == Apply(s, a, mode)
  }

  ghost predicate Run(mode: Mode, ss: seq<Completion>, acts: seq<Act>) {
    && |ss| == |acts| + 1 && ss[0] == START
    && forall k | 0 <= k < |acts| :: Step(mode, ss[k], acts[k], ss[k + 1])
  }

  // ----- the invariant -----

  function One(b: bool): int { if b then 1 else 0 }

  /** The open step still has to raise the flag. */
  predicate ToRaise(s: Completion) { (s.steps == s.ended + 1 && !s.raised) || s.h == HLock || s.h == HSet }

  /** The open step is in exactly one place: with the handler, in the flag, or with the worker. */
  predicate OnePlace(s: Completion) {
    && s.steps - s.ended == One(ToRaise(s)) + One(s.needsComplete) + One(s.w == WStamp || s.w == WComplete)
    && 0 <= s.ended <= s.steps <= s.ended + 1
  }

  predicate Owns(w: Worker) {
    w == WTest || w == WCheck || w == WClear || w == WStamp || w == WComplete || w == WUnlock
  }

  ghost predicate Inv(s: Completion, mode: Mode) {
    Protocol(s, mode) && Counts(s)
  }

  ghost predicate Counts(s: Completion) {
    && |s.started| == s.steps - One(s.h == HStamp)
    && |s.completed| == s.ended + One(s.w == WComplete)
  }

  ghost predicate Protocol(s: Completion, mode: Mode) {
    && (s.mutex == TheHandler <==> s.h == HSet || s.h == HUnlock)
    && (s.mutex == TheWorker <==> Owns(s.w))
    && OnePlace(s)
    && (s.h == HStamp ==> s.steps == s.ended + 1 && !s.raised)
    && (s.h == HLock || s.h == HSet ==> s.raised)
    && (mode == AtOnce && s.steps == s.ended + 1 && s.h != HStamp ==> s.raised)
    && (s.w == WClear ==> s.needsComplete)
    && (s.needsComplete && s.w == WAsleep ==> s.h == HUnlock || s.h == HNotify)
    && (s.w == WEnded ==> !s.running)
  }

  ghost predicate Stamps(s: Completion) {
    && |s.completed| <= |s.started| <= |s.completed| + 1
    && (forall k | 0 <= k < |s.started| :: s.started[k] < s.clock)
    && (forall k | 0 <= k < |s.completed| :: s.completed[k] < s.clock)
    && Ordered(s.started, s.completed)
  }

  lemma HandlerKeeps(s: Completion, mode: Mode)
    requires mode != Repeatedly
    requires Protocol(s, mode) && Enabled(s, HandlerStep, mode)
    ensures Protocol(Apply(s, HandlerStep, mode), mode)
  {}

  lemma WorkerKeeps(s: Completion, mode: Mode)
    requires Protocol(s, mode) && Enabled(s, WorkerStep, mode)
    ensures Protocol(Apply(s, WorkerStep, mode), mode)
  {
    var s' := Apply(s, WorkerStep, mode);
    assert OnePlace(s');
  }

  lemma CountsKept(s: Completion, a: Act, mode: Mode)
    requires OnePlace(s) && Counts(s) && Enabled(s, a, mode)
    ensures Counts(Apply(s, a, mode))
  {}

  lemma StepKeepsInv(s: Completion, a: Act, mode: Mode)
    requires mode != Repeatedly && Inv(s, mode) && Enabled(s, a, mode)
    ensures Inv(Apply(s, a, mode), mode)
  {
    CountsKept(s, a, mode);
    match a
    case HandlerStep => HandlerKeeps(s, mode);
    case WorkerStep => WorkerKeeps(s, mode);
    case _ =>
  }

  /** Time stamps are taken strictly in turn. */
  lemma StampsKept(s: Completion, a: Act, mode: Mode)
    requires Stamps(s) && Enabled(s, a, mode)
    requires a == HandlerStep && s.h == HStamp ==> |s.started| == |s.completed|
    requires a == WorkerStep && s.w == WStamp ==> |s.completed| < |s.started|
    ensures Stamps(Apply(s, a, mode))
  {
    var s' := Apply(s, a, mode);
    OrderedAppends(s.started, s.completed, s.clock);
    if a == HandlerStep && s.h == HStamp {
      assert s'.started == s.started + [s.clock] && s'.completed == s.completed;
    } else if a == WorkerStep && s.w == WStamp {
      assert s'.started == s.started && s'.completed == s.completed + [s.clock];
    } else {
      assert s'.started == s.started && s'.completed == s.completed && s'.clock >= s.clock;
    }
  }

  lemma OrderedAppends(started: seq<int>, completed: seq<int>, now: int)
    requires Ordered(started, completed) && |completed| <= |started| <= |completed| + 1
    requires forall k | 0 <= k < |started| :: started[k] < now
    requires forall k | 0 <= k < |completed| :: completed[k] < now
    ensures |started| == |completed| ==> Ordered(started + [now], completed)
    ensures |started| > |completed| ==> Ordered(started, completed + [now])
  {
    if |started| == |completed| {
      forall k | 0 <= k < |completed| ensures OrderedAt(started + [now], completed, k) {
        assert OrderedAt(started, completed, k);
      }
    } else {
      forall k | 0 <= k < |started| ensures OrderedAt(started, completed + [now], k) {
        if k < |completed| {
          assert OrderedAt(started, completed, k);
        }
      }
    }
  }

  lemma {:induction false} RunInv(mode: Mode, ss: seq<Completion>, acts: seq<Act>, k: nat)
    requires mode != Repeatedly && Run(mode, ss, acts) && k < |ss|
    ensures Inv(ss[k], mode) && Stamps(ss[k])
    decreases k
  {
    if k == 0 {
    } else {
      RunInv(mode, ss, acts, k - 1);
      assert Step(mode, ss[k - 1], acts[k - 1], ss[k]);
      StepKeepsInv(ss[k - 1], acts[k - 1], mode);
      StampsKept(ss[k - 1], acts[k - 1], mode);
    }
  }

  // ----- every run -----

  /** started[i] < completed[i] < started[j] for all i < j, and completed never lags by more than one,
      with any number of spurious and timed-out wakeups. */
  lemma StepsNeverOverlap(mode: Mode, ss: seq<Completion>, acts: seq<Act>, n: nat)
    requires mode != Repeatedly && Run(mode, ss, acts) && n < |ss|
    ensures var s := ss[n];
            && |s.completed| <= |s.started| <= |s.completed| + 1
            && (forall i | 0 <= i < |s.completed| :: s.started[i] < s.completed[i])
            && forall i, j | 0 <= i < j < |s.started| :: s.completed[i] < s.started[j]
  {
    RunInv(mode, ss, acts, n);
    var s := ss[n];
    forall i | 0 <= i < |s.completed| ensures s.started[i] < s.completed[i] {
      assert OrderedAt(s.started, s.completed, i);
    }
    forall i, j | 0 <= i < j < |s.started| ensures s.completed[i] < s.started[j] {
      OrderedThroughout(s.started, s.completed, i, j);
    }
  }

  /** An open step that was signalled never depends on the timeout: no wakeup is lost. */
  lemma NoTimeoutNeeded(mode: Mode, ss: seq<Completion>, acts: seq<Act>, n: nat)
    requires mode != Repeatedly && Run(mode, ss, acts) && n < |ss|
    requires ss[n].steps == ss[n].ended + 1 && ss[n].raised && ss[n].w != WEnded
    ensures Enabled(ss[n], HandlerStep, mode) || Enabled(ss[n], WorkerStep, mode)
  {
    RunInv(mode, ss, acts, n);
  }

  /** What AssertValid asks for. */
  ghost predicate Passes(s: Completion) {
    !s.running && !s.needsComplete && Ordered(s.started, s.completed)
  }

  /** Once the thread has ended the final check passes exactly when the last step was completed, or
      never became due. */
  lemma PassesWhenCompleted(mode: Mode, ss: seq<Completion>, acts: seq<Act>, n: nat)
    requires mode != Repeatedly && Run(mode, ss, acts) && n < |ss|
    requires ss[n].w == WEnded && ss[n].h == HOut
    ensures Passes(ss[n]) <==> |ss[n].started| == |ss[n].completed| || (mode == OncePerStep && !ss[n].raised)
  {
    RunInv(mode, ss, acts, n);
  }

  // ----- runs that fail -----

  lemma Again(mode: Mode, ss: seq<Completion>, acts: seq<Act>, a: Act, next: Completion)
    returns (ss': seq<Completion>, acts': seq<Act>)
    requires Run(mode, ss, acts) && Step(mode, ss[|acts|], a, next)
    ensures Run(mode, ss', acts') && ss'[|acts'|] == next
  {
    ss', acts' := ss + [next], acts + [a];
    forall k | 0 <= k < |acts'| ensures Step(mode, ss'[k], acts'[k], ss'[k + 1]) {
      if k < |acts| {
        assert Step(mode, ss[k], acts[k], ss[k + 1]);
      }
    }
  }

  lemma Raising(mode: Mode, ss: seq<Completion>, acts: seq<Act>) returns (ss': seq<Completion>, acts': seq<Act>)
    requires Run(mode, ss, acts)
    requires var s := ss[|acts|]; s.h == HLock && s.mutex == Nobody && s.w == WAsk
    ensures Run(mode, ss', acts') && ss'[|acts'|] == ss[|acts|].(needsComplete := true, h := HOut)
  {
    var s := ss[|acts|];
    ss', acts' := Again(mode, ss, acts, HandlerStep, s.(mutex := TheHandler, h := HSet));
    s := s.(needsComplete := true);
    ss', acts' := Again(mode, ss', acts', HandlerStep, s.(mutex := TheHandler, h := HUnlock));
    ss', acts' := Again(mode, ss', acts', HandlerStep, s.(h := HNotify));
    ss', acts' := Again(mode, ss', acts', HandlerStep, s.(h := HOut));
  }

  lemma Consuming(mode: Mode, ss: seq<Completion>, acts: seq<Act>) returns (ss': seq<Completion>, acts': seq<Act>)
    requires Run(mode, ss, acts)
    requires var s := ss[|acts|]; s.running && s.needsComplete && s.mutex == Nobody && s.w == WAsk
    ensures Run(mode, ss', acts')
    ensures ss'[|acts'|] == ss[|acts|].(mutex := TheWorker, needsComplete := false, w := WStamp)
  {
    var s := ss[|acts|];
    ss', acts' := Again(mode, ss, acts, WorkerStep, s.(w := WLock));
    s := s.(mutex := TheWorker);
    ss', acts' := Again(mode, ss', acts', WorkerStep, s.(w := WTest));
    ss', acts' := Again(mode, ss', acts', WorkerStep, s.(w := WCheck));
    ss', acts' := Again(mode, ss', acts', WorkerStep, s.(w := WClear));
    ss', acts' := Again(mode, ss', acts', WorkerStep, s.(needsComplete := false, w := WStamp));
  }

  lemma Completing(mode: Mode, ss: seq<Completion>, acts: seq<Act>) returns (ss': seq<Completion>, acts': seq<Act>)
    requires Run(mode, ss, acts) && ss[|acts|].w == WStamp
    ensures Run(mode, ss', acts')
    ensures var s := ss[|acts|];
            ss'[|acts'|] == s.(completed := s.completed + [s.clock], clock := s.clock + 1,
                               ended := s.steps, mutex := Nobody, w := WAsk)
  {
    var s := ss[|acts|];
    s := s.(completed := s.completed + [s.clock], clock := s.clock + 1, w := WComplete);
    ss', acts' := Again(mode, ss, acts, WorkerStep, s);
    s := s.(ended := s.steps, w := WUnlock);
    ss', acts' := Again(mode, ss', acts', WorkerStep, s);
    ss', acts' := Again(mode, ss', acts', WorkerStep, s.(mutex := Nobody, w := WAsk));
  }

  /** A second signal after the flag was taken and before the step is completed makes the thread
      complete once more than there are steps, and the time stamps get out of order. */
  lemma SecondSignalFails() returns (ss: seq<Completion>, acts: seq<Act>)
    ensures Run(Repeatedly, ss, acts) && !Ordered(ss[|acts|].started, ss[|acts|].completed)
  {
    ss, acts := [START], [];
    var s := START.(h := HStamp, steps := 1);
    ss, acts := Again(Repeatedly, ss, acts, Invoke, s);
    s := s.(started := [0], clock := 1, h := HOut);
    ss, acts := Again(Repeatedly, ss, acts, HandlerStep, s);
    s := s.(h := HLock, raised := true);
    ss, acts := Again(Repeatedly, ss, acts, Signal, s);
    ss, acts := Raising(Repeatedly, ss, acts);
    ss, acts := Consuming(Repeatedly, ss, acts);
    s := s.(mutex := TheWorker, w := WStamp);
    ss, acts := Again(Repeatedly, ss, acts, Signal, s);
    ss, acts := Completing(Repeatedly, ss, acts);
    ss, acts := Raising(Repeatedly, ss, acts);
    ss, acts := Consuming(Repeatedly, ss, acts);
    ss, acts := Completing(Repeatedly, ss, acts);
    s := s.(completed := [1, 2], clock := 3, ended := 1, mutex := Nobody, h := HOut, w := WAsk);
    assert ss[|acts|] == s;
    s := s.(h := HStamp, steps := 2, raised := false);
    ss, acts := Again(Repeatedly, ss, acts, Invoke, s);
    s := s.(started := [0, 3], clock := 4, h := HOut);
    ss, acts := Again(Repeatedly, ss, acts, HandlerStep, s);
    assert !OrderedAt(s.started, s.completed, 1);
  }

  /** Time stamps can get out of order. */
  ghost predicate CanOverlap(mode: Mode) {
    exists ss, acts :: Run(mode, ss, acts) && OutOfOrder(ss, acts)
  }

  ghost predicate OutOfOrder(ss: seq<Completion>, acts: seq<Act>)
    requires |ss| == |acts| + 1
  {
    !Ordered(ss[|acts|].started, ss[|acts|].completed)
  }

  /** They can exactly when the participant may be signalled more than once in a step. */
  lemma OverlapsExactly(mode: Mode)
    ensures CanOverlap(mode) <==> mode == Repeatedly
  {
    if mode == Repeatedly {
      var ss, acts := SecondSignalFails();
      assert OutOfOrder(ss, acts);
    } else if CanOverlap(mode) {
      var ss, acts :| Run(mode, ss, acts) && OutOfOrder(ss, acts);
      RunInv(mode, ss, acts, |acts|);
    }
  }

  /** The final check can fail: the stop handler runs while a step is open, and the thread ends with the
      flag up. */
  lemma StopDuringStepFails() returns (ss: seq<Completion>, acts: seq<Act>)
    ensures Run(AtOnce, ss, acts)
    ensures var s := ss[|acts|]; s.w == WEnded && s.h == HOut && !Passes(s)
  {
    ss, acts := [START], [];
    var s := START.(h := HStamp, steps := 1);
    ss, acts := Again(AtOnce, ss, acts, Invoke, s);
    s := s.(started := [0], clock := 1, h := HLock, raised := true);
    ss, acts := Again(AtOnce, ss, acts, HandlerStep, s);
    ss, acts := Raising(AtOnce, ss, acts);
    s := s.(needsComplete := true, h := HOut, running := false);
    ss, acts := Again(AtOnce, ss, acts, StopHandler, s);
    ss, acts := Again(AtOnce, ss, acts, WorkerStep, s.(w := WEnded));
  }
}
