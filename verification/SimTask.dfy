/** A synchronous step handler that hands its counter to a second thread in the middle of every step
    and waits until that thread has published, while both publish the counter's value.

    Every access to shared memory is a step of its own; the value to publish is read in two loads. The
    handler is invoked for the time points 0, 1, 2, ... in units of its period. */
module SimTask {
  import opened Basics

  datatype Stamp = Stamp(major: int, minor: int)

  datatype Handler =
    | HOut | HAskRunning | HAskLimit
    | HStop | HWakeAll                                          // running cleared, all notified
    | HMajor | HReset
    | HMinor | HLoadMajor | HLoadMinor | HPublish               // the first value of a step
    | HLock | HBlock | HUnlock | HNotify                        // handing over
    | HRetake | HTest | HSleep | HAsleep | HRelock | HAskAgain  // waiting for the completer
    | HMinor' | HLoadMajor' | HLoadMinor' | HPublish'           // the third value

  datatype Completer =
    | CAskRunning | CLock | CTest | CSleep | CAsleep | CRelock | CAskAgain
    | CMinor | CLoadMajor | CLoadMinor | CPublish               // the second value
    | CRelease | CNotify | CUnlock
    | CExited

  datatype Owner = Nobody | TheHandler | TheCompleter

  datatype System = System(
    major: int, minor: int,                           // the counter
    blocking: bool, running: bool, mutex: Owner,
    h: Handler, hLoaded: Stamp,
    c: Completer, cLoaded: Stamp,
    calls: int, rounds: int, published: seq<Stamp>)

  const START := System(0, 0, false, true, Nobody, HOut, Stamp(0, 0), CAskRunning, Stamp(0, 0), 0, 0, [])

  datatype Act = Invoke | HandlerStep | CompleterStep | WakeHandler | WakeCompleter

  predicate Enabled(s: System, a: Act) {
    match a
    case Invoke => s.h == HOut
    case HandlerStep =>
      && s.h != HOut && s.h != HAsleep
      && (s.h == HLock || s.h == HRetake || s.h == HRelock ==> s.mutex == Nobody)
    case CompleterStep =>
      && s.c != CExited && s.c != CAsleep
      && (s.c == CLock || s.c == CRelock ==> s.mutex == Nobody)
    case WakeHandler => s.h == HAsleep      // spurious wakeups
    case WakeCompleter => s.c == CAsleep
  }

  function Apply(s: System, a: Act, limit: nat): System
    requires Enabled(s, a)
  {
    match a
    case Invoke => s.(h := HAskRunning, calls := s.calls + 1)
    case HandlerStep => HandlerNext(s, limit)
    case CompleterStep => CompleterNext(s)
    case WakeHandler => s.(h := HRelock)
    case WakeCompleter => s.(c := CRelock)
  }

  function Increment(x: int): int { (x + 1) % W }

  function HandlerNext(s: System, limit: nat): System
    requires Enabled(s, HandlerStep)
  {
    match s.h
    case HAskRunning => s.(h := if s.running then HAskLimit else HOut)
    case HAskLimit => s.(h := if s.calls - 1 >= limit then HStop else HMajor)
    case HStop => s.(running := false, h := HWakeAll)
    case HWakeAll => WakesCompleter(s).(h := HOut)
    case HMajor => s.(major := Increment(s.major), rounds := s.rounds + 1, h := HReset)
    case HReset => s.(minor := 0, h := HMinor)
    case HMinor => s.(minor := Increment(s.minor), h := HLoadMajor)
    case HLoadMajor => s.(hLoaded := s.hLoaded.(major := s.major), h := HLoadMinor)
    case HLoadMinor => s.(hLoaded := s.hLoaded.(minor := s.minor), h := HPublish)
    case HPublish => s.(published := s.published + [s.hLoaded], h := HLock)
    case HLock => s.(mutex := TheHandler, h := HBlock)
    case HBlock => s.(blocking := true, h := HUnlock)
    case HUnlock => s.(mutex := Nobody, h := HNotify)
    case HNotify => WakesCompleter(s).(h := HRetake)
    case HRetake => s.(mutex := TheHandler, h := HTest)
    case HRelock => s.(mutex := TheHandler, h := HTest)
    case HTest => s.(h := if !s.blocking || !s.running then HAskAgain else HSleep)
    case HSleep => s.(mutex := Nobody, h := HAsleep)
    case HAskAgain => s.(mutex := Nobody, h := if s.running then HMinor' else HOut)
    case HMinor' => s.(minor := Increment(s.minor), h := HLoadMajor')
    case HLoadMajor' => s.(hLoaded := s.hLoaded.(major := s.major), h := HLoadMinor')
    case HLoadMinor' => s.(hLoaded := s.hLoaded.(minor := s.minor), h := HPublish')
    case HPublish' => s.(published := s.published + [s.hLoaded], h := HOut)
  }

  function WakesCompleter(s: System): System { s.(c := if s.c == CAsleep then CRelock else s.c) }

  function CompleterNext(s: System): System
    requires Enabled(s, CompleterStep)
  {
    match s.c
    case CAskRunning => s.(c := if s.running then CLock else CExited)
    case CLock => s.(mutex := TheCompleter, c := CTest)
    case CRelock => s.(mutex := TheCompleter, c := CTest)
    case CTest => s.(c := if s.blocking || !s.running then CAskAgain else CSleep)
    case CSleep => s.(mutex := Nobody, c := CAsleep)
    case CAskAgain => if s.running then s.(c := CMinor) else s.(mutex := Nobody, c := CExited)
    case CMinor => s.(minor := Increment(s.minor), c := CLoadMajor)
    case CLoadMajor => s.(cLoaded := s.cLoaded.(major := s.major), c := CLoadMinor)
    case CLoadMinor => s.(cLoaded := s.cLoaded.(minor := s.minor), c := CPublish)
    case CPublish => s.(published := s.published + [s.cLoaded], c := CRelease)
    case CRelease => s.(blocking := false, c := CNotify)
    case CNotify => s.(h := if s.h == HAsleep then HRelock else s.h, c := CUnlock)
    case CUnlock => s.(mutex := Nobody, c := CAskRunning)
  }

  ghost predicate Step(limit: nat, s: System, a: Act, s': System) {
    Enabled(s, a) && s' == Apply(s, a, limit)
  }

  ghost predicate Run(limit: nat, ss: seq<System>, acts: seq<Act>) {
    && |ss| == |acts| + 1 && ss[0] == START
    && forall k | 0 <= k < |acts| :: Step(limit, ss[k], acts[k], ss[k + 1])
  }

  // ----- who may do what -----

  predicate HandlerOwns(h: Handler) {
    h == HBlock || h == HUnlock || h == HTest || h == HSleep || h == HAskAgain
  }

  predicate CompleterOwns(c: Completer) {
    c == CTest || c == CSleep || c == CAskAgain || Working(c)
  }

  /** The completer has been handed the counter. */
  predicate Working(c: Completer) { Publishing(c) || c == CRelease || c == CNotify || c == CUnlock }

  /** The completer uses the counter. */
  predicate Publishing(c: Completer) { c == CMinor || c == CLoadMajor || c == CLoadMinor || c == CPublish }

  /** The handler uses the counter. */
  predicate Using(h: Handler) { First(h) || Third(h) }

  predicate First(h: Handler) {
    h == HMajor || h == HReset || h == HMinor || h == HLoadMajor || h == HLoadMinor || h == HPublish
  }

  predicate Third(h: Handler) { h == HMinor' || h == HLoadMajor' || h == HLoadMinor' || h == HPublish' }

  /** The handler has handed the counter over and not got it back. */
  predicate Waiting(h: Handler) {
    h == HUnlock || h == HNotify || h == HRetake || h == HTest || h == HSleep || h == HAsleep || h == HRelock
  }

  predicate Outside(h: Handler) {
    h == HOut || h == HAskRunning || h == HAskLimit || h == HStop || h == HWakeAll || h == HMajor
  }

  // ----- the invariant -----

  ghost predicate Exclusive(s: System) {
    && (s.mutex == TheHandler <==> HandlerOwns(s.h))
    && (s.mutex == TheCompleter <==> CompleterOwns(s.c))
    && (s.blocking ==> Waiting(s.h) && s.running)
    && (s.h == HUnlock ==> s.blocking)
    && (Working(s.c) ==> Waiting(s.h) && (s.blocking <==> Publishing(s.c) || s.c == CRelease))
    && (s.c == CAskAgain ==> s.blocking || !s.running)
    && (s.h == HAskAgain ==> !s.blocking)
    && (s.h == HSleep ==> s.blocking)
    && (s.h == HAsleep ==> s.blocking || s.c == CNotify)
    && (s.c == CSleep ==> !s.blocking)
    && (s.c == CAsleep && s.blocking ==> s.h == HUnlock || s.h == HNotify)
    && (!s.running ==> s.h == HOut || s.h == HAskRunning || s.h == HWakeAll)
    && (s.h == HWakeAll ==> !s.running)
    && (s.c == CExited ==> !s.running)
  }

  /** How many values the current step has published. */
  function Phase(s: System): int {
    if Outside(s.h) then 3
    else if First(s.h) || s.h == HReset then 0
    else if s.h == HLock || s.h == HBlock then 1
    else if Third(s.h) || s.h == HAskAgain then 2
    else if s.blocking && s.c != CRelease then 1
    else 2
  }

  /** How many values have been published. */
  function Count(s: System): int { 3 * s.rounds - 3 + Phase(s) }

  /** The minor value, where it matters. */
  ghost predicate MinorOk(s: System) {
    && (s.h == HMinor ==> s.minor == 0)
    && (!Outside(s.h) && s.h != HReset && s.h != HMinor ==>
          s.minor == Phase(s) + (if Loading(s.h) || s.c == CLoadMajor || s.c == CLoadMinor || s.c == CPublish
                                 then 1 else 0))
  }

  predicate Loading(h: Handler) {
    h == HLoadMajor || h == HLoadMinor || h == HPublish || h == HLoadMajor' || h == HLoadMinor' || h == HPublish'
  }

  /** What a thread has loaded is the counter's value, not a mixture of two. */
  ghost predicate Unmixed(s: System) {
    && (s.h == HLoadMinor || s.h == HLoadMinor' || s.h == HPublish || s.h == HPublish' ==>
          s.hLoaded.major == s.major)
    && (s.h == HPublish || s.h == HPublish' ==> s.hLoaded.minor == s.minor)
    && (s.c == CLoadMinor || s.c == CPublish ==> s.cLoaded.major == s.major)
    && (s.c == CPublish ==> s.cLoaded.minor == s.minor)
  }

  ghost predicate Rounds(s: System, limit: nat) {
    && 0 <= s.rounds <= limit && (s.rounds == 0 ==> Outside(s.h))
    && (s.running ==> s.rounds == s.calls - (if Outside(s.h) && s.h != HOut then 1 else 0))
    && (!s.running ==> s.rounds == limit)
    && (s.h == HStop ==> s.calls - 1 >= limit)
    && (s.h == HMajor ==> s.calls - 1 < limit)
  }

  predicate InHandOver(h: Handler) { h == HLock || h == HBlock || h == HAskAgain || Waiting(h) }

  lemma HandingOverExclusive(s: System, limit: nat)
    requires Exclusive(s) && Enabled(s, HandlerStep) && InHandOver(s.h) && !Waiting(s.h)
    ensures Exclusive(Apply(s, HandlerStep, limit))
  {}

  lemma WaitingExclusive(s: System, limit: nat)
    requires Exclusive(s) && Enabled(s, HandlerStep) && Waiting(s.h)
    ensures Exclusive(Apply(s, HandlerStep, limit))
  {}

  lemma OutsideExclusive(s: System, limit: nat)
    requires Exclusive(s) && Enabled(s, HandlerStep) && Outside(s.h)
    ensures Exclusive(Apply(s, HandlerStep, limit))
  {}

  lemma FirstExclusive(s: System, limit: nat)
    requires Exclusive(s) && Enabled(s, HandlerStep) && First(s.h) && !Outside(s.h)
    ensures Exclusive(Apply(s, HandlerStep, limit))
  {}

  /** With the third value in hand the handler goes straight on to the end of its step. */
  function AfterThird(h: Handler): Handler {
    if h == HMinor' then HLoadMajor' else if h == HLoadMajor' then HLoadMinor'
    else if h == HLoadMinor' then HPublish' else HOut
  }

  lemma ThirdEffect(s: System, limit: nat)
    requires Enabled(s, HandlerStep) && Third(s.h)
    ensures var s' := Apply(s, HandlerStep, limit);
            && s'.h == AfterThird(s.h) && s'.c == s.c && s'.mutex == s.mutex
            && s'.blocking == s.blocking && s'.running == s.running
            && s'.rounds == s.rounds && s'.calls == s.calls
            && s'.minor == (if s.h == HMinor' then Increment(s.minor) else s.minor)
  {}

  lemma ThirdExclusive(s: System, s': System)
    requires Exclusive(s) && Third(s.h) && s'.h == AfterThird(s.h)
    requires s'.c == s.c && s'.mutex == s.mutex && s'.blocking == s.blocking && s'.running == s.running
    ensures Exclusive(s')
  {
    assert !Working(s.c) && !s.blocking && s.running && s.mutex != TheHandler;
  }

  lemma WorkingExclusive(s: System)
    requires Exclusive(s) && Enabled(s, CompleterStep) && Working(s.c)
    ensures Exclusive(CompleterNext(s))
  {}

  lemma AskingExclusive(s: System)
    requires Exclusive(s) && Enabled(s, CompleterStep) && !Working(s.c)
    ensures Exclusive(CompleterNext(s))
  {}

  lemma ExclusiveKept(s: System, a: Act, limit: nat)
    requires Exclusive(s) && Enabled(s, a)
    ensures Exclusive(Apply(s, a, limit))
  {
    match a
    case HandlerStep =>
      if Waiting(s.h) {
        WaitingExclusive(s, limit);
      } else if InHandOver(s.h) {
        HandingOverExclusive(s, limit);
      } else if Outside(s.h) {
        OutsideExclusive(s, limit);
      } else if First(s.h) {
        FirstExclusive(s, limit);
      } else {
        ThirdEffect(s, limit);
        ThirdExclusive(s, HandlerNext(s, limit));
      }
    case CompleterStep =>
      if Working(s.c) {
        WorkingExclusive(s);
      } else {
        AskingExclusive(s);
      }
    case _ =>
  }

  lemma OutsideMinor(s: System, limit: nat)
    requires MinorOk(s) && Enabled(s, HandlerStep) && Outside(s.h)
    ensures MinorOk(Apply(s, HandlerStep, limit))
  {}

  lemma ThirdMeans(s: System)
    requires Exclusive(s) && Third(s.h)
    ensures MinorOk(s) <==> s.minor == if s.h == HMinor' then 2 else 3
  {
    assert !Publishing(s.c) && Phase(s) == 2;
  }

  lemma ThirdMinor(s: System, s': System)
    requires Exclusive(s) && MinorOk(s) && Third(s.h) && s'.h == AfterThird(s.h)
    requires s'.c == s.c && s'.mutex == s.mutex && s'.blocking == s.blocking && s'.running == s.running
    requires s'.minor == if s.h == HMinor' then Increment(s.minor) else s.minor
    ensures MinorOk(s')
  {
    ThirdMeans(s);
    if s.h != HPublish' {
      ThirdExclusive(s, s');
      ThirdMeans(s');
    }
  }

  lemma HandlerMinor(s: System, limit: nat)
    requires Exclusive(s) && MinorOk(s) && Enabled(s, HandlerStep) && First(s.h) && !Outside(s.h)
    ensures MinorOk(Apply(s, HandlerStep, limit))
  {}

  lemma HandingOverMinor(s: System, limit: nat)
    requires Exclusive(s) && MinorOk(s) && Enabled(s, HandlerStep) && InHandOver(s.h)
    ensures MinorOk(Apply(s, HandlerStep, limit))
  {}

  lemma PublishingMinor(s: System)
    requires Exclusive(s) && MinorOk(s) && Enabled(s, CompleterStep) && Publishing(s.c)
    ensures MinorOk(CompleterNext(s))
  {
    assert Waiting(s.h) && s.blocking && Phase(s) == 1;
  }

  /** Otherwise the completer changes nothing that counts. */
  lemma IdleEffect(s: System)
    requires Exclusive(s) && Enabled(s, CompleterStep) && !Publishing(s.c)
    ensures var s' := CompleterNext(s);
            && s'.minor == s.minor && s'.rounds == s.rounds && Phase(s') == Phase(s)
            && (s'.h == s.h || (s.h == HAsleep && s'.h == HRelock))
            && s'.c != CLoadMajor && s'.c != CLoadMinor && s'.c != CPublish
  {}

  lemma OutsideUnmixed(s: System, limit: nat)
    requires Exclusive(s) && Unmixed(s) && Enabled(s, HandlerStep) && (Outside(s.h) || InHandOver(s.h))
    ensures Unmixed(Apply(s, HandlerStep, limit))
  {}

  lemma FirstUnmixed(s: System, limit: nat)
    requires Exclusive(s) && Unmixed(s) && Enabled(s, HandlerStep) && First(s.h) && !Outside(s.h)
    ensures Unmixed(Apply(s, HandlerStep, limit))
  {
    assert !Publishing(s.c);
  }

  lemma ThirdUnmixed(s: System, limit: nat)
    requires Exclusive(s) && Unmixed(s) && Enabled(s, HandlerStep) && Third(s.h)
    ensures Unmixed(Apply(s, HandlerStep, limit))
  {
    ThirdEffect(s, limit);
    var s' := HandlerNext(s, limit);
    assert !Publishing(s.c) && s'.major == s.major;
    assert s'.h == HLoadMinor' ==> s'.hLoaded.major == s'.major;
    assert s'.h == HPublish' ==> s'.hLoaded.major == s'.major && s'.hLoaded.minor == s'.minor;
  }

  lemma CompleterUnmixed(s: System)
    requires Exclusive(s) && Unmixed(s) && Enabled(s, CompleterStep)
    ensures Unmixed(CompleterNext(s))
  {}

  lemma UnmixedKept(s: System, a: Act, limit: nat)
    requires Exclusive(s) && Unmixed(s) && Enabled(s, a)
    ensures Unmixed(Apply(s, a, limit))
  {
    match a
    case HandlerStep =>
      if Outside(s.h) || InHandOver(s.h) {
        OutsideUnmixed(s, limit);
      } else if First(s.h) {
        FirstUnmixed(s, limit);
      } else {
        ThirdUnmixed(s, limit);
      }
    case CompleterStep => CompleterUnmixed(s);
    case _ =>
  }

  lemma OutsideRounds(s: System, limit: nat)
    requires Exclusive(s) && Rounds(s, limit) && Enabled(s, HandlerStep) && Outside(s.h)
    ensures Rounds(Apply(s, HandlerStep, limit), limit)
  {}

  lemma HandlerRounds(s: System, limit: nat)
    requires Exclusive(s) && Rounds(s, limit) && Enabled(s, HandlerStep) && !Outside(s.h)
    ensures Rounds(Apply(s, HandlerStep, limit), limit)
  {
    if Third(s.h) {
      ThirdEffect(s, limit);
    }
  }

  lemma CompleterRounds(s: System, limit: nat)
    requires Rounds(s, limit) && Enabled(s, CompleterStep)
    ensures Rounds(Apply(s, CompleterStep, limit), limit)
    ensures Apply(s, CompleterStep, limit).major == s.major
  {}

  lemma RoundsKept(s: System, a: Act, limit: nat)
    requires Exclusive(s) && Rounds(s, limit) && Enabled(s, a)
    ensures Rounds(Apply(s, a, limit), limit)
  {
    match a
    case HandlerStep =>
      if Outside(s.h) {
        OutsideRounds(s, limit);
      } else {
        HandlerRounds(s, limit);
      }
    case CompleterStep => CompleterRounds(s, limit);
    case _ =>
  }

  ghost predicate MajorOk(s: System) { s.major == s.rounds % W }

  lemma MajorKept(s: System, a: Act, limit: nat)
    requires MajorOk(s) && Enabled(s, a) && s.rounds >= 0
    ensures MajorOk(Apply(s, a, limit))
  {
    IncrementWraps(s.rounds);
  }

  lemma IncrementWraps(n: int)
    ensures Increment(n % W) == (n + 1) % W
  {}

  // ----- what is published -----

  /** The j-th value: (1, 1), (1, 2), (1, 3), (2, 1), ... with the major number wrapping. */
  function Item(j: int): Stamp { Stamp((j / 3 + 1) % W, j % 3 + 1) }

  function Expected(n: nat): (r: seq<Stamp>)
    ensures |r| == n
    ensures forall j | 0 <= j < n :: r[j] == Item(j)
  {
    if n == 0 then [] else Expected(n - 1) + [Item(n - 1)]
  }

  ghost predicate PublishedOk(s: System) {
    Count(s) >= 0 && s.published == Expected(Count(s))
  }

  predicate Publishes(s: System, a: Act) {
    || (a == HandlerStep && (s.h == HPublish || s.h == HPublish'))
    || (a == CompleterStep && s.c == CPublish)
  }

  lemma OutsideCounts(s: System, limit: nat)
    requires Enabled(s, HandlerStep) && Outside(s.h)
    ensures Count(Apply(s, HandlerStep, limit)) == Count(s) && !Publishes(s, HandlerStep)
  {}

  lemma FirstCounts(s: System, limit: nat)
    requires Enabled(s, HandlerStep) && First(s.h) && !Outside(s.h)
    ensures Count(Apply(s, HandlerStep, limit)) == Count(s) + (if Publishes(s, HandlerStep) then 1 else 0)
  {}

  lemma ThirdCounts(s: System, s': System)
    requires Third(s.h) && s'.h == AfterThird(s.h) && s'.rounds == s.rounds
    ensures Count(s') == Count(s) + (if s.h == HPublish' then 1 else 0)
  {}

  lemma HandingOverCounts(s: System, limit: nat)
    requires Exclusive(s) && Enabled(s, HandlerStep) && InHandOver(s.h)
    ensures Count(Apply(s, HandlerStep, limit)) == Count(s) && !Publishes(s, HandlerStep)
  {}

  lemma PublishingCounts(s: System)
    requires Exclusive(s) && Enabled(s, CompleterStep) && Publishing(s.c)
    ensures Count(CompleterNext(s)) == Count(s) + (if s.c == CPublish then 1 else 0)
  {
    assert Waiting(s.h) && s.blocking && Phase(s) == 1;
  }

  lemma CountAfter(s: System, a: Act, limit: nat)
    requires Exclusive(s) && Enabled(s, a)
    ensures Count(Apply(s, a, limit)) == Count(s) + (if Publishes(s, a) then 1 else 0)
  {
    match a
    case HandlerStep =>
      if InHandOver(s.h) {
        HandingOverCounts(s, limit);
      } else if Outside(s.h) {
        OutsideCounts(s, limit);
      } else if First(s.h) {
        FirstCounts(s, limit);
      } else {
        ThirdEffect(s, limit);
        ThirdCounts(s, HandlerNext(s, limit));
      }
    case CompleterStep =>
      if Publishing(s.c) {
        PublishingCounts(s);
      } else {
        IdleEffect(s);
      }
    case _ =>
  }

  lemma ItemOf(round: int, phase: int)
    requires round > 0 && 0 <= phase <= 2
    ensures Item(3 * round - 3 + phase) == Stamp(round % W, phase + 1)
  {}

  /** The value about to be published is the counter's, and it is the next one in order. */
  lemma AboutToPublish(s: System, a: Act)
    requires Exclusive(s) && MinorOk(s) && Unmixed(s) && Enabled(s, a) && Publishes(s, a)
    ensures !Outside(s.h) && 0 <= Phase(s) <= 2
    ensures Value(s, a) == Stamp(s.major, s.minor) == Stamp(s.major, Phase(s) + 1)
  {}

  function Value(s: System, a: Act): Stamp { if a == HandlerStep then s.hLoaded else s.cLoaded }

  lemma PublishedAfter(s: System, a: Act, limit: nat)
    requires Enabled(s, a)
    ensures Apply(s, a, limit).published == if Publishes(s, a) then s.published + [Value(s, a)] else s.published
  {}

  lemma PublishedKept(s: System, s': System, value: Stamp)
    requires PublishedOk(s)
    requires || (Count(s') == Count(s) && s'.published == s.published)
             || (Count(s') == Count(s) + 1 && s'.published == s.published + [value] && value == Item(Count(s)))
    ensures PublishedOk(s')
  {}

  lemma NextPublished(s: System, a: Act, limit: nat)
    requires Exclusive(s) && MinorOk(s) && Unmixed(s) && MajorOk(s) && Rounds(s, limit) && PublishedOk(s)
    requires Enabled(s, a)
    ensures PublishedOk(Apply(s, a, limit))
  {
    CountAfter(s, a, limit);
    PublishedAfter(s, a, limit);
    if Publishes(s, a) {
      AboutToPublish(s, a);
      ItemOf(s.rounds, Phase(s));
    }
    PublishedKept(s, Apply(s, a, limit), Value(s, a));
  }

  ghost predicate Inv(s: System, limit: nat) {
    Exclusive(s) && MinorOk(s) && Unmixed(s) && MajorOk(s) && Rounds(s, limit) && PublishedOk(s)
  }

  lemma MinorKept(s: System, a: Act, limit: nat)
    requires Exclusive(s) && MinorOk(s) && Enabled(s, a)
    ensures MinorOk(Apply(s, a, limit))
  {
    match a
    case HandlerStep =>
      if InHandOver(s.h) {
        HandingOverMinor(s, limit);
      } else if Outside(s.h) {
        OutsideMinor(s, limit);
      } else if Third(s.h) {
        ThirdEffect(s, limit);
        ThirdMinor(s, HandlerNext(s, limit));
      } else {
        HandlerMinor(s, limit);
      }
    case CompleterStep =>
      if Publishing(s.c) {
        PublishingMinor(s);
      } else {
        IdleEffect(s);
      }
    case _ =>
  }

  lemma StepKeepsInv(limit: nat, s: System, a: Act, s': System)
    requires Inv(s, limit) && Step(limit, s, a, s')
    ensures Inv(s', limit)
  {
    ExclusiveKept(s, a, limit);
    MinorKept(s, a, limit);
    UnmixedKept(s, a, limit);
    MajorKept(s, a, limit);
    RoundsKept(s, a, limit);
    NextPublished(s, a, limit);
  }

  lemma StartInv(limit: nat)
    ensures Inv(START, limit)
  {}

  lemma {:induction false} RunInv(limit: nat, ss: seq<System>, acts: seq<Act>, k: nat)
    requires Run(limit, ss, acts) && k < |ss|
    ensures Inv(ss[k], limit)
  {
    StartInv(limit);
    for m := 0 to k
      invariant Inv(ss[m], limit)
    {
      StepKeepsInv(limit, ss[m], acts[m], ss[m + 1]);
    }
  }

  // ----- every run -----

  /** Whatever the interleaving, the published values are (1, 1), (1, 2), (1, 3), (2, 1), ... in order,
      and when the handler clears `running` all three of every step have been published. */
  lemma PublishedInOrder(limit: nat, ss: seq<System>, acts: seq<Act>, k: nat)
    requires Run(limit, ss, acts) && k < |ss|
    ensures ss[k].published == Expected(|ss[k].published|)
    ensures !ss[k].running ==> |ss[k].published| == 3 * limit
  {
    RunInv(limit, ss, acts, k);
  }

  /** The two threads never use the counter at the same time, so the two loads that make up a value
      belong together. */
  lemma OneOwner(limit: nat, ss: seq<System>, acts: seq<Act>, k: nat)
    requires Run(limit, ss, acts) && k < |ss|
    ensures !(Using(ss[k].h) && Publishing(ss[k].c))
    ensures ss[k].h == HPublish || ss[k].h == HPublish' ==> ss[k].hLoaded == Stamp(ss[k].major, ss[k].minor)
    ensures ss[k].c == CPublish ==> ss[k].cLoaded == Stamp(ss[k].major, ss[k].minor)
  {
    RunInv(limit, ss, acts, k);
  }

  /** A handler that has to wait waits for a completer that can move. */
  lemma SomeoneMoves(s: System)
    requires Exclusive(s) && s.running && s.h != HOut && !Enabled(s, HandlerStep)
    ensures Enabled(s, CompleterStep)
  {
    if s.h == HAsleep {
      assert s.mutex != TheHandler && s.c != CAsleep;
    } else {
      assert s.mutex == TheCompleter;
      assert CompleterOwns(s.c);
    }
  }

  /** While the handler is inside a step and `running` holds, one of the two threads can move without
      a spurious wakeup. */
  lemma NoDeadlock(limit: nat, ss: seq<System>, acts: seq<Act>, k: nat)
    requires Run(limit, ss, acts) && k < |ss|
    requires ss[k].running && ss[k].h != HOut
    ensures Enabled(ss[k], HandlerStep) || Enabled(ss[k], CompleterStep)
  {
    RunInv(limit, ss, acts, k);
    if !Enabled(ss[k], HandlerStep) {
      SomeoneMoves(ss[k]);
    }
  }

  // ----- shutdown -----

  /** The completer has missed the last notification: it has seen `running` before it was cleared,
      and goes to sleep afterwards. */
  predicate Missed(s: System) {
    !s.running && !s.blocking && (s.h == HOut || s.h == HAskRunning) && (s.c == CSleep || s.c == CAsleep)
  }

  /** The last notification has been sent and the completer is on its way out. */
  predicate Leaving(s: System) {
    !s.running && (s.h == HOut || s.h == HAskRunning) && s.mutex != TheHandler
    && s.c != CSleep && s.c != CAsleep && !Working(s.c)
  }

  function StepsToExit(c: Completer): nat {
    match c
    case CExited => 0
    case CAskRunning => 1
    case CAskAgain => 1
    case CTest => 2
    case CLock => 3
    case CRelock => 3
    case _ => 4
  }

  /** Exactly one thing decides whether the completer ends: where it is when the handler notifies. */
  lemma LastNotification(limit: nat, ss: seq<System>, acts: seq<Act>, k: nat)
    requires Run(limit, ss, acts) && k < |acts| && acts[k] == HandlerStep && ss[k].h == HWakeAll
    ensures ss[k].c == CSleep ==> Missed(ss[k + 1])
    ensures ss[k].c != CSleep ==> Leaving(ss[k + 1])
  {
    RunInv(limit, ss, acts, k);
    assert Step(limit, ss[k], acts[k], ss[k + 1]);
  }

  /** Having missed it, the completer never ends unless it wakes up spuriously. */
  lemma MissedForever(s: System, a: Act, limit: nat)
    requires Missed(s) && Enabled(s, a) && a != WakeCompleter
    ensures Missed(Apply(s, a, limit))
  {}

  /** Otherwise it never sleeps again, and each of its steps brings it closer to the end. */
  lemma LeavingEnds(s: System, a: Act, limit: nat)
    requires Leaving(s) && Exclusive(s) && Enabled(s, a)
    ensures Leaving(Apply(s, a, limit))
    ensures a == CompleterStep ==> StepsToExit(Apply(s, a, limit).c) < StepsToExit(s.c)
    ensures a != CompleterStep ==> Apply(s, a, limit).c == s.c
  {}

  function CompleterSteps(acts: seq<Act>): nat {
    if acts == [] then 0
    else CompleterSteps(acts[..|acts| - 1]) + (if acts[|acts| - 1] == CompleterStep then 1 else 0)
  }

  function StepsBetween(acts: seq<Act>, k: nat, n: nat): nat
    requires k < n <= |acts|
  {
    CompleterSteps(acts[k + 1..n])
  }

  lemma LeavingStep(limit: nat, ss: seq<System>, acts: seq<Act>, k: nat)
    requires Run(limit, ss, acts) && k < |acts| && Leaving(ss[k])
    ensures Leaving(ss[k + 1])
    ensures StepsToExit(ss[k + 1].c) + (if acts[k] == CompleterStep then 1 else 0) <= StepsToExit(ss[k].c)
  {
    RunInv(limit, ss, acts, k);
    assert Step(limit, ss[k], acts[k], ss[k + 1]);
    LeavingEnds(ss[k], acts[k], limit);
  }

  /** A number that falls with every completer step bounds how many of them there are. */
  lemma {:induction false} CountDown(left: seq<nat>, acts: seq<Act>, k: nat, n: nat)
    requires |left| == |acts| + 1 && k < n < |left|
    requires forall m | k < m < n :: left[m + 1] + (if acts[m] == CompleterStep then 1 else 0) <= left[m]
    ensures StepsBetween(acts, k, n) + left[n] <= left[k + 1]
    decreases n
  {
    if n == k + 1 {
      assert acts[k + 1..k + 1] == [];
    } else {
      CountDown(left, acts, k, n - 1);
      assert acts[k + 1..n][..n - k - 2] == acts[k + 1..n - 1];
    }
  }

  /** A completer that was not about to sleep at the notification is on its way out for good. */
  lemma {:induction false} LeavesForGood(limit: nat, ss: seq<System>, acts: seq<Act>, k: nat, n: nat)
    requires Run(limit, ss, acts) && k < n < |ss| && acts[k] == HandlerStep && ss[k].h == HWakeAll
    requires ss[k].c != CSleep
    ensures Leaving(ss[n])
    decreases n
  {
    if n == k + 1 {
      LastNotification(limit, ss, acts, k);
    } else {
      LeavesForGood(limit, ss, acts, k, n - 1);
      LeavingStep(limit, ss, acts, n - 1);
    }
  }

  function StepsLeft(ss: seq<System>): (r: seq<nat>)
    ensures |r| == |ss| && forall i | 0 <= i < |ss| :: r[i] == StepsToExit(ss[i].c)
  {
    seq(|ss|, i requires 0 <= i < |ss| => StepsToExit(ss[i].c))
  }

  lemma EndsSoon(limit: nat, ss: seq<System>, acts: seq<Act>, k: nat, n: nat)
    requires Run(limit, ss, acts) && k < n < |ss| && acts[k] == HandlerStep && ss[k].h == HWakeAll
    requires ss[k].c != CSleep
    ensures StepsBetween(acts, k, n) + StepsToExit(ss[n].c) <= StepsToExit(ss[k + 1].c)
  {
    var left := StepsLeft(ss);
    forall m | k < m < n ensures left[m + 1] + (if acts[m] == CompleterStep then 1 else 0) <= left[m] {
      LeavesForGood(limit, ss, acts, k, m);
      LeavingStep(limit, ss, acts, m);
    }
    CountDown(left, acts, k, n);
  }

  /** One that was about to sleep never ends, unless it wakes up spuriously. */
  lemma {:induction false} NeverEnds(limit: nat, ss: seq<System>, acts: seq<Act>, k: nat, n: nat)
    requires Run(limit, ss, acts) && k < n < |ss| && acts[k] == HandlerStep && ss[k].h == HWakeAll
    requires ss[k].c == CSleep && forall m | k < m < n :: acts[m] != WakeCompleter
    ensures Missed(ss[n])
    decreases n
  {
    if n == k + 1 {
      LastNotification(limit, ss, acts, k);
    } else {
      NeverEnds(limit, ss, acts, k, n - 1);
      assert Step(limit, ss[n - 1], acts[n - 1], ss[n]);
      MissedForever(ss[n - 1], acts[n - 1], limit);
    }
  }

  lemma LeavingMoves(s: System)
    requires Leaving(s) && Exclusive(s)
    ensures s.c == CExited || Enabled(s, CompleterStep)
  {}

  lemma NeverBlocked(limit: nat, ss: seq<System>, acts: seq<Act>, k: nat, n: nat)
    requires Run(limit, ss, acts) && k < n < |ss| && acts[k] == HandlerStep && ss[k].h == HWakeAll
    requires ss[k].c != CSleep
    ensures ss[n].c == CExited || Enabled(ss[n], CompleterStep)
  {
    LeavesForGood(limit, ss, acts, k, n);
    RunInv(limit, ss, acts, n);
    LeavingMoves(ss[n]);
  }

  /** After the final notification, without spurious wakeups, the completer ends exactly if it was not
      about to sleep at that moment: then at most four of its steps are left and none can be blocked. */
  lemma CompleterEndsExactly(limit: nat, ss: seq<System>, acts: seq<Act>, k: nat, n: nat)
    requires Run(limit, ss, acts) && k < n < |ss| && acts[k] == HandlerStep && ss[k].h == HWakeAll
    requires forall m | k < m < n :: acts[m] != WakeCompleter
    ensures ss[k].c == CSleep ==> ss[n].c == CSleep || ss[n].c == CAsleep
    ensures ss[k].c != CSleep ==>
              && StepsBetween(acts, k, n) + StepsToExit(ss[n].c) <= 4
              && (ss[n].c == CExited || Enabled(ss[n], CompleterStep))
  {
    if ss[k].c == CSleep {
      NeverEnds(limit, ss, acts, k, n);
    } else {
      EndsSoon(limit, ss, acts, k, n);
      NeverBlocked(limit, ss, acts, k, n);
    }
  }

  lemma Extend(limit: nat, ss: seq<System>, acts: seq<Act>, a: Act)
    requires Run(limit, ss, acts) && Enabled(ss[|acts|], a)
    ensures Run(limit, ss + [Apply(ss[|acts|], a, limit)], acts + [a])
  {
    var ss', acts' := ss + [Apply(ss[|acts|], a, limit)], acts + [a];
    forall k | 0 <= k < |acts'| ensures Step(limit, ss'[k], acts'[k], ss'[k + 1]) {
      if k < |acts| {
        assert Step(limit, ss[k], acts[k], ss[k + 1]);
      }
    }
  }

  /** A run goes on with one more action. */
  lemma Does(limit: nat, ss: seq<System>, acts: seq<Act>, a: Act) returns (ss': seq<System>, acts': seq<Act>)
    requires Run(limit, ss, acts) && Enabled(ss[|acts|], a)
    ensures Run(limit, ss', acts') && ss'[|acts'|] == Apply(ss[|acts|], a, limit)
  {
    Extend(limit, ss, acts, a);
    ss', acts' := ss + [Apply(ss[|acts|], a, limit)], acts + [a];
  }

  /** Where both threads are while `running` holds and nobody has the mutex. */
  predicate At(s: System, h: Handler, c: Completer, blocking: bool, calls: int) {
    s.h == h && s.c == c && s.blocking == blocking && s.calls == calls && s.running && s.mutex == Nobody
  }

  lemma StepOpens(limit: nat, ss: seq<System>, acts: seq<Act>, n: int) returns (ss': seq<System>, acts': seq<Act>)
    requires Run(limit, ss, acts) && At(ss[|acts|], HOut, CAskRunning, false, n) && n < limit
    ensures Run(limit, ss', acts') && At(ss'[|acts'|], HMajor, CAskRunning, false, n + 1)
  {
    ss', acts' := Does(limit, ss, acts, Invoke);
    ss', acts' := Does(limit, ss', acts', HandlerStep);
    ss', acts' := Does(limit, ss', acts', HandlerStep);
  }

  lemma FirstIsPublished(limit: nat, ss: seq<System>, acts: seq<Act>, n: int)
    returns (ss': seq<System>, acts': seq<Act>)
    requires Run(limit, ss, acts) && At(ss[|acts|], HMajor, CAskRunning, false, n)
    ensures Run(limit, ss', acts') && At(ss'[|acts'|], HLock, CAskRunning, false, n)
  {
    ss', acts' := Does(limit, ss, acts, HandlerStep);
    ss', acts' := Does(limit, ss', acts', HandlerStep);
    ss', acts' := Does(limit, ss', acts', HandlerStep);
    ss', acts' := Does(limit, ss', acts', HandlerStep);
    ss', acts' := Does(limit, ss', acts', HandlerStep);
    ss', acts' := Does(limit, ss', acts', HandlerStep);
  }

  lemma HandsOver(limit: nat, ss: seq<System>, acts: seq<Act>, n: int) returns (ss': seq<System>, acts': seq<Act>)
    requires Run(limit, ss, acts) && At(ss[|acts|], HLock, CAskRunning, false, n)
    ensures Run(limit, ss', acts') && At(ss'[|acts'|], HRetake, CAskRunning, true, n)
  {
    ss', acts' := Does(limit, ss, acts, HandlerStep);
    ss', acts' := Does(limit, ss', acts', HandlerStep);
    ss', acts' := Does(limit, ss', acts', HandlerStep);
    ss', acts' := Does(limit, ss', acts', HandlerStep);
  }

  lemma SecondIsTaken(limit: nat, ss: seq<System>, acts: seq<Act>, n: int)
    returns (ss': seq<System>, acts': seq<Act>)
    requires Run(limit, ss, acts) && At(ss[|acts|], HRetake, CAskRunning, true, n)
    ensures Run(limit, ss', acts') && At(ss'[|acts'|].(mutex := Nobody), HRetake, CMinor, true, n)
    ensures ss'[|acts'|].mutex == TheCompleter
  {
    ss', acts' := Does(limit, ss, acts, CompleterStep);
    ss', acts' := Does(limit, ss', acts', CompleterStep);
    ss', acts' := Does(limit, ss', acts', CompleterStep);
    ss', acts' := Does(limit, ss', acts', CompleterStep);
  }

  lemma SecondIsPublished(limit: nat, ss: seq<System>, acts: seq<Act>, n: int)
    returns (ss': seq<System>, acts': seq<Act>)
    requires Run(limit, ss, acts) && At(ss[|acts|].(mutex := Nobody), HRetake, CMinor, true, n)
    requires ss[|acts|].mutex == TheCompleter
    ensures Run(limit, ss', acts') && At(ss'[|acts'|].(mutex := Nobody), HRetake, CRelease, true, n)
    ensures ss'[|acts'|].mutex == TheCompleter
  {
    ss', acts' := Does(limit, ss, acts, CompleterStep);
    ss', acts' := Does(limit, ss', acts', CompleterStep);
    ss', acts' := Does(limit, ss', acts', CompleterStep);
    ss', acts' := Does(limit, ss', acts', CompleterStep);
  }

  lemma HandsBack(limit: nat, ss: seq<System>, acts: seq<Act>, n: int) returns (ss': seq<System>, acts': seq<Act>)
    requires Run(limit, ss, acts) && At(ss[|acts|].(mutex := Nobody), HRetake, CRelease, true, n)
    requires ss[|acts|].mutex == TheCompleter
    ensures Run(limit, ss', acts') && At(ss'[|acts'|], HRetake, CAskRunning, false, n)
  {
    ss', acts' := Does(limit, ss, acts, CompleterStep);
    ss', acts' := Does(limit, ss', acts', CompleterStep);
    ss', acts' := Does(limit, ss', acts', CompleterStep);
  }

  lemma ThirdIsPublished(limit: nat, ss: seq<System>, acts: seq<Act>, n: int)
    returns (ss': seq<System>, acts': seq<Act>)
    requires Run(limit, ss, acts) && At(ss[|acts|], HRetake, CAskRunning, false, n)
    ensures Run(limit, ss', acts') && At(ss'[|acts'|], HOut, CAskRunning, false, n)
  {
    ss', acts' := Does(limit, ss, acts, HandlerStep);
    ss', acts' := Does(limit, ss', acts', HandlerStep);
    ss', acts' := Does(limit, ss', acts', HandlerStep);
    ss', acts' := Does(limit, ss', acts', HandlerStep);
    ss', acts' := Does(limit, ss', acts', HandlerStep);
    ss', acts' := Does(limit, ss', acts', HandlerStep);
    ss', acts' := Does(limit, ss', acts', HandlerStep);
  }

  lemma {:induction false} FullSteps(limit: nat, n: nat) returns (ss: seq<System>, acts: seq<Act>)
    requires n <= limit
    ensures Run(limit, ss, acts) && At(ss[|acts|], HOut, CAskRunning, false, n)
    decreases n
  {
    if n == 0 {
      ss, acts := [START], [];
    } else {
      ss, acts := FullSteps(limit, n - 1);
      ss, acts := StepOpens(limit, ss, acts, n - 1);
      ss, acts := FirstIsPublished(limit, ss, acts, n);
      ss, acts := HandsOver(limit, ss, acts, n);
      ss, acts := SecondIsTaken(limit, ss, acts, n);
      ss, acts := SecondIsPublished(limit, ss, acts, n);
      ss, acts := HandsBack(limit, ss, acts, n);
      ss, acts := ThirdIsPublished(limit, ss, acts, n);
    }
  }

  /** And the notification can be missed, whatever the limit: after all steps the completer finds `running`
      still set, and it goes to sleep only after the handler has cleared it and notified. */
  lemma NotificationCanBeMissed(limit: nat) returns (ss: seq<System>, acts: seq<Act>)
    ensures Run(limit, ss, acts) && Missed(ss[|acts|])
  {
    var ss0, acts0 := FullSteps(limit, limit);
    ss, acts := Does(limit, ss0, acts0, CompleterStep);
    ss, acts := Does(limit, ss, acts, CompleterStep);
    ss, acts := Does(limit, ss, acts, CompleterStep);
    ss, acts := Does(limit, ss, acts, Invoke);
    ss, acts := Does(limit, ss, acts, HandlerStep);
    ss, acts := Does(limit, ss, acts, HandlerStep);
    ss, acts := Does(limit, ss, acts, HandlerStep);
    ss, acts := Does(limit, ss, acts, HandlerStep);
  }

  // ----- the final check -----

  predicate InOrder(received: seq<Stamp>, j: nat)
    requires j < |received|
  {
    received[j] == Stamp(j / 3 + 1, j % 3 + 1)
  }

  method CheckReceived(received: seq<Stamp>) returns (ok: bool)
    ensures ok <==> forall j | 0 <= j < |received| / 3 * 3 :: InOrder(received, j)
  {
    ok := true;
    for major := 1 to |received| / 3 + 1
      invariant ok <==> forall j | 0 <= j < (major - 1) * 3 :: InOrder(received, j)
    {
      for minor := 1 to 4
        invariant ok <==> forall j | 0 <= j < (major - 1) * 3 + (minor - 1) :: InOrder(received, j)
      {
        ghost var j := (major - 1) * 3 + (minor - 1);
        assert InOrder(received, j) <==> received[j] == Stamp(major, minor);
        if received[(major - 1) * 3 + (minor - 1)] != Stamp(major, minor) {
          ok := false;
        }
      }
    }
  }

  /** The check accepts what a run publishes exactly as long as the major number has not wrapped. */
  lemma AcceptedUntilWrap(n: nat)
    ensures (forall j | 0 <= j < n / 3 * 3 :: InOrder(Expected(n), j)) <==> n / 3 < W
  {
    if n / 3 >= W {
      assert !InOrder(Expected(n), 3 * W - 3);
    } else {
      forall j | 0 <= j < n / 3 * 3 ensures InOrder(Expected(n), j) {
        assert Expected(n)[j] == Item(j);
      }
    }
  }
}
