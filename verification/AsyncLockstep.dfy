/** A simulation step handler that hands every step over to a second thread, which completes it.
    The two alternate by the parity of a counter under one mutex and one condition variable.

    Every access to shared memory is a step of its own, and the steps of the two threads interleave
    freely. The handler is invoked for the time points 0, 1, 2, ... in units of its period, and never
    before the step before was completed. */
module AsyncLockstep {

  datatype Handler =
    | HOut | HNoteTime | HCount | HAskDone | HLock
    | HTest | HAsleep | HRelock       // waiting for an even counter
    | HHandOver | HAskLimit | HNotify | HUnlock

  datatype Completer =
    | CAskDone | CAskTime | CLock
    | CTest | CAsleep | CRelock       // waiting for an odd counter
    | CAskAgain | CAskActive | CRelease | CComplete | CHandBack | CNotify | CUnlock
    | CExited

  datatype Owner = Nobody | TheHandler | TheCompleter

  datatype Lockstep = Lockstep(
    syncTime: int, active: int, counter: int, done: bool,  // the variables the threads share
    mutex: Owner, h: Handler, c: Completer,
    calls: int, handOvers: int, completions: int, turns: int,  // how often each thing has happened
    failures: int)                                             // assertions that failed

  datatype Act = Invoke | HandlerStep | CompleterStep | WakeHandler | WakeCompleter

  const START := Lockstep(0, 0, 0, false, Nobody, HOut, CAskDone, 0, 0, 0, 0, 0)

  predicate Enabled(s: Lockstep, a: Act) {
    match a
    case Invoke => s.h == HOut && s.completions == s.calls
    case HandlerStep => s.h != HOut && s.h != HAsleep && (s.h == HLock || s.h == HRelock ==> s.mutex == Nobody)
    case CompleterStep => s.c != CExited && s.c != CAsleep && (s.c == CLock || s.c == CRelock ==> s.mutex == Nobody)
    case WakeHandler => s.h == HAsleep     // a spurious wakeup
    case WakeCompleter => s.c == CAsleep
  }

  function Apply(s: Lockstep, a: Act, limit: nat): Lockstep
    requires Enabled(s, a)
  {
    match a
    case Invoke => s.(h := HNoteTime, calls := s.calls + 1)
    case HandlerStep => HandlerNext(s, limit)
    case CompleterStep => CompleterNext(s, limit)
    case WakeHandler => s.(h := HRelock)
    case WakeCompleter => s.(c := CRelock)
  }

  /** The handler's step for time point `s.calls - 1`. */
  function HandlerNext(s: Lockstep, limit: nat): Lockstep
    requires Enabled(s, HandlerStep)
  {
    match s.h
    case HNoteTime => s.(syncTime := s.calls - 1, h := HCount)
    case HCount => s.(active := s.active + 1, h := HAskDone)
    case HAskDone => s.(h := if s.done then HOut else HLock)
    case HLock => s.(mutex := TheHandler, h := HTest)
    case HRelock => s.(mutex := TheHandler, h := HTest)
    case HTest => if s.counter % 2 == 0 then s.(h := HHandOver) else s.(mutex := Nobody, h := HAsleep)
    case HHandOver => s.(counter := s.counter + 1, handOvers := s.handOvers + 1, h := HAskLimit)
    case HAskLimit => s.(done := s.done || s.calls - 1 == limit, h := HNotify)
    case HNotify => s.(c := if s.c == CAsleep then CRelock else s.c, h := HUnlock)
    case HUnlock => s.(mutex := Nobody, h := HOut)
  }

  function CompleterNext(s: Lockstep, limit: nat): Lockstep
    requires Enabled(s, CompleterStep)
  {
    match s.c
    case CAskDone => s.(c := if s.done then CExited else CAskTime)
    case CAskTime => s.(c := if s.syncTime < limit then CLock else CExited)
    case CLock => s.(mutex := TheCompleter, c := CTest)
    case CRelock => s.(mutex := TheCompleter, c := CTest)
    case CTest => if s.counter % 2 == 1 then s.(c := CAskAgain) else s.(mutex := Nobody, c := CAsleep)
    case CAskAgain => if s.done then s.(mutex := Nobody, c := CExited) else s.(c := CAskActive)
    case CAskActive =>
      if s.active == 1 then s.(c := CRelease)
      else if s.active == 0 then s.(done := true, c := CRelease)
      else s.(failures := s.failures + 1, mutex := Nobody, c := CExited)
    case CRelease => s.(active := s.active - 1, c := CComplete)
    case CComplete => s.(completions := s.completions + 1, c := CHandBack)
    case CHandBack => s.(counter := s.counter + 1, turns := s.turns + 1, c := CNotify)
    case CNotify => s.(h := if s.h == HAsleep then HRelock else s.h, c := CUnlock)
    case CUnlock => s.(mutex := Nobody, c := CAskDone)
  }

  /** The states of a run, one more than its actions. */
  ghost predicate Run(limit: nat, ss: seq<Lockstep>, acts: seq<Act>) {
    && |ss| == |acts| + 1 && ss[0] == START
    && forall k | 0 <= k < |acts| :: Step(limit, ss[k], acts[k], ss[k + 1])
  }

  ghost predicate Step(limit: nat, s: Lockstep, a: Act, s': Lockstep) {
    Enabled(s, a) && s' == Apply(s, a, limit)
  }

  // ----- the invariant -----

  predicate HandlerOwns(h: Handler) { h in {HTest, HHandOver, HAskLimit, HNotify, HUnlock} }

  predicate CompleterOwns(c: Completer) {
    c in {CTest, CAskAgain, CAskActive, CRelease, CComplete, CHandBack, CNotify, CUnlock}
  }

  /** The handler is inside but has not handed its step over yet. */
  predicate Before(h: Handler) { h in {HNoteTime, HCount, HAskDone, HLock, HTest, HHandOver} }

  predicate After(h: Handler) { h in {HAskLimit, HNotify, HUnlock} }

  /** The completer has seen the odd counter and works on the step handed over to it. */
  predicate Working(c: Completer) { c in {CAskAgain, CAskActive, CRelease, CComplete, CHandBack} }

  function One(b: bool): int { if b then 1 else 0 }

  ghost predicate Inv(s: Lockstep, limit: nat) {
    && (s.mutex == TheHandler <==> HandlerOwns(s.h))
    && (s.mutex == TheCompleter <==> CompleterOwns(s.c))
    && s.counter == s.handOvers + s.turns
    && 0 <= s.turns <= s.handOvers <= s.turns + 1
    && s.calls == s.handOvers + One(Before(s.h))
    && s.completions == s.turns + One(s.c == CHandBack)
    && s.completions <= s.calls <= s.completions + 1
    && (Before(s.h) ==> s.completions == s.calls - 1)
    && (Working(s.c) ==> s.handOvers == s.turns + 1)
    && s.active == s.calls - s.completions - One(s.h == HNoteTime || s.h == HCount) - One(s.c == CComplete)
    && s.syncTime == NotedTime(s)
    && (s.done <==> s.handOvers == limit + 1 && s.h != HAskLimit)
    && s.handOvers <= limit + 1 && s.calls <= limit + 1 && s.turns <= limit
    && (Working(s.c) && s.c != CAskAgain ==> !s.done)
    && s.h != HAsleep && s.h != HRelock
    && (s.c == CAsleep ==> s.handOvers == s.turns || s.h == HAskLimit || s.h == HNotify)
    && (s.c == CExited ==> s.done || s.syncTime >= limit)
    && s.failures == 0
  }

  function NotedTime(s: Lockstep): int {
    var steps := s.calls - One(s.h == HNoteTime);
    if steps == 0 then 0 else steps - 1
  }

  lemma InvokeKeeps(s: Lockstep, limit: nat)
    requires Inv(s, limit) && Enabled(s, Invoke)
    ensures Inv(Apply(s, Invoke, limit), limit)
  {}

  lemma HandlerKeeps(s: Lockstep, limit: nat)
    requires Inv(s, limit) && Enabled(s, HandlerStep)
    ensures Inv(Apply(s, HandlerStep, limit), limit)
  {}

  /** The completer asks whether to go on, or waits for its turn. */
  predicate Idling(c: Completer) {
    c == CAskDone || c == CAskTime || c == CLock || c == CTest || c == CAsleep || c == CRelock || c == CExited
  }

  lemma IdlingCompleterKeeps(s: Lockstep, limit: nat)
    requires Inv(s, limit) && Enabled(s, CompleterStep) && Idling(s.c)
    ensures Inv(Apply(s, CompleterStep, limit), limit)
  {}

  lemma WorkingCompleterKeeps(s: Lockstep, limit: nat)
    requires Inv(s, limit) && Enabled(s, CompleterStep) && Working(s.c)
    ensures Inv(Apply(s, CompleterStep, limit), limit)
  {
    if s.c == CAskActive {
      assert s.active == 1;
    }
  }

  lemma LeavingCompleterKeeps(s: Lockstep, limit: nat)
    requires Inv(s, limit) && Enabled(s, CompleterStep) && (s.c == CNotify || s.c == CUnlock)
    ensures Inv(Apply(s, CompleterStep, limit), limit)
  {}

  lemma CompleterKeeps(s: Lockstep, limit: nat)
    requires Inv(s, limit) && Enabled(s, CompleterStep)
    ensures Inv(Apply(s, CompleterStep, limit), limit)
  {
    if Idling(s.c) {
      IdlingCompleterKeeps(s, limit);
    } else if Working(s.c) {
      WorkingCompleterKeeps(s, limit);
    } else {
      LeavingCompleterKeeps(s, limit);
    }
  }

  lemma StepKeepsInv(s: Lockstep, a: Act, limit: nat)
    requires Inv(s, limit) && Enabled(s, a)
    ensures Inv(Apply(s, a, limit), limit)
  {
    match a
    case Invoke => InvokeKeeps(s, limit);
    case HandlerStep => HandlerKeeps(s, limit);
    case CompleterStep => CompleterKeeps(s, limit);
    case _ =>
  }

  lemma {:induction false} RunInv(limit: nat, ss: seq<Lockstep>, acts: seq<Act>, k: nat)
    requires Run(limit, ss, acts) && k < |ss|
    ensures Inv(ss[k], limit)
    decreases k
  {
    if k == 0 {
    } else {
      RunInv(limit, ss, acts, k - 1);
      assert Step(limit, ss[k - 1], acts[k - 1], ss[k]);
      StepKeepsInv(ss[k - 1], acts[k - 1], limit);
    }
  }

  // ----- safety -----

  /** Whenever the completer looks, exactly one step is active; the number never leaves {0, 1}; and
      the counter counts the hand-overs and the turns given back. */
  lemma OneStepActive(limit: nat, ss: seq<Lockstep>, acts: seq<Act>, k: nat)
    requires Run(limit, ss, acts) && k < |ss|
    ensures 0 <= ss[k].active <= 1 && (ss[k].c == CAskActive ==> ss[k].active == 1)
    ensures ss[k].failures == 0
    ensures ss[k].counter == ss[k].handOvers + ss[k].turns
    ensures ss[k].counter % 2 == 1 <==> ss[k].handOvers == ss[k].turns + 1
  {
    RunInv(limit, ss, acts, k);
  }

  /** The handler never has to wait, so the two threads never wait both, and it never finds the
      test already stopped. */
  lemma HandlerNeverWaits(limit: nat, ss: seq<Lockstep>, acts: seq<Act>, k: nat)
    requires Run(limit, ss, acts) && k < |ss|
    ensures ss[k].h != HAsleep
    ensures ss[k].h == HTest ==> ss[k].counter % 2 == 0
    ensures ss[k].h == HAskDone ==> !ss[k].done
  {
    RunInv(limit, ss, acts, k);
  }

  // ----- progress and termination -----

  /** The test has ended as intended: stopped at the limit, with the last step left open. */
  predicate Finished(s: Lockstep, limit: nat) {
    && s.done && s.h == HOut && s.c == CExited && s.mutex == Nobody
    && s.calls == limit + 1 && s.completions == limit && s.counter == 2 * limit + 1
  }

  /** No wakeup is ever lost: until the test has ended some thread can move without a spurious one. */
  lemma NoLostWakeup(limit: nat, ss: seq<Lockstep>, acts: seq<Act>, k: nat)
    requires Run(limit, ss, acts) && k < |ss|
    ensures || Finished(ss[k], limit)
            || Enabled(ss[k], Invoke) || Enabled(ss[k], HandlerStep) || Enabled(ss[k], CompleterStep)
  {
    RunInv(limit, ss, acts, k);
  }

  function HandlerRank(h: Handler): nat {
    match h
    case HOut => 0
    case HNoteTime => 11
    case HCount => 10
    case HAskDone => 9
    case HLock => 8
    case HRelock => 8
    case HTest => 7
    case HAsleep => 1
    case HHandOver => 6
    case HAskLimit => 21
    case HNotify => 20
    case HUnlock => 3
  }

  function CompleterRank(c: Completer): nat {
    match c
    case CAskDone => 12
    case CAskTime => 11
    case CLock => 10
    case CRelock => 10
    case CTest => 9
    case CAsleep => 1
    case CAskAgain => 8
    case CAskActive => 7
    case CRelease => 6
    case CComplete => 5
    case CHandBack => 4
    case CNotify => 15
    case CUnlock => 14
    case CExited => 0
  }

  function Rank(s: Lockstep, limit: nat): int {
    40 * (2 * limit + 2 - s.counter) + 40 * (limit + 1 - s.calls) + HandlerRank(s.h) + CompleterRank(s.c)
  }

  function Wakeups(acts: seq<Act>): nat {
    if acts == [] then 0
    else Wakeups(acts[..|acts| - 1]) + (if acts[|acts| - 1] == WakeCompleter then 1 else 0)
  }

  lemma RankFalls(s: Lockstep, a: Act, limit: nat)
    requires Inv(s, limit) && Enabled(s, a)
    ensures 0 <= Rank(s, limit)
    ensures Rank(Apply(s, a, limit), limit) < Rank(s, limit) + (if a == WakeCompleter then 10 else 0)
  {}

  /** However the threads interleave, the test ends: apart from spurious wakeups a run has no more
      steps than this. */
  lemma {:induction false} RunsAreBounded(limit: nat, ss: seq<Lockstep>, acts: seq<Act>)
    requires Run(limit, ss, acts)
    ensures |acts| + Rank(ss[|acts|], limit) <= 120 * (limit + 1) + 12 + 10 * Wakeups(acts)
    ensures Rank(ss[|acts|], limit) >= 0
    decreases |acts|
  {
    RunInv(limit, ss, acts, |acts|);
    if acts == [] {
    } else {
      var n := |acts| - 1;
      assert forall k | 0 <= k < n :: Step(limit, ss[..n + 1][k], acts[..n][k], ss[..n + 1][k + 1]);
      RunsAreBounded(limit, ss[..n + 1], acts[..n]);
      RunInv(limit, ss, acts, n);
      assert Step(limit, ss[n], acts[n], ss[n + 1]);
      RankFalls(ss[n], acts[n], limit);
    }
  }
}
