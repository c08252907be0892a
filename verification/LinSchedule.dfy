/** The one-shot timer of the LIN tests and the schedule of delayed tasks that re-arms it.

    An action runs as the last thing a timer does, after the timer has been cleared, so what it does
    to the timer comes after that in the order of operations. The methods therefore return the action
    that is to run, and the operations it performs are the next ones of the trace. */
module LinSchedule {
  import opened Basics

  // ----- the timer -----

  datatype Alarm<A> = Idle | Armed(timeOut: int, action: A)

  datatype TimerOp<A> = Set(timeOut: int, action: A) | Clear | Tick(now: int)

  function AfterOp<A>(t: Alarm<A>, op: TimerOp<A>): Alarm<A> {
    match op
    case Set(timeOut, action) => Armed(timeOut, action)
    case Clear => Idle
    case Tick(now) => if Fires(t, now).Some? then Idle else t
  }

  function Fires<A>(t: Alarm<A>, now: int): Option<A> {
    if t.Armed? && t.timeOut <= now then Some(t.action) else None
  }

  const NEVER: int := 0x7FFF_FFFF_FFFF_FFFF

  class Timer<A> {
    var isActive: bool
    var timeOut: int
    var action: Option<A>

    ghost predicate Valid()
      reads this
    {
      isActive ==> action.Some?
    }

    ghost function State(): Alarm<A>
      reads this
      requires Valid()
    {
      if isActive then Armed(timeOut, action.value) else Idle
    }

    constructor ()
      ensures Valid() && State() == Idle
    {
      isActive, timeOut, action := false, NEVER, None;
    }

    method Set(timeOut: int, action: A)
      modifies this
      ensures Valid() && State() == AfterOp(Idle, TimerOp.Set(timeOut, action))
    {
      isActive := true;
      this.timeOut := timeOut;
      this.action := Some(action);
    }

    method Clear()
      requires Valid()
      modifies this
      ensures Valid() && State() == Idle
    {
      isActive := false;
      timeOut := NEVER;
      action := None;
    }

    /** Returns the action that runs, now that the timer is cleared. */
    method ExecuteAction(now: int) returns (run: Option<A>)
      requires Valid()
      modifies this
      ensures Valid() && State() == AfterOp(old(State()), Tick(now))
      ensures run == Fires(old(State()), now)
    {
      if !isActive || now < timeOut {
        return None;
      }
      run := action;
      Clear();
    }
  }

  function Replay<A>(ops: seq<TimerOp<A>>): Alarm<A> {
    if ops == [] then Idle else AfterOp(Replay(ops[..|ops| - 1]), ops[|ops| - 1])
  }

  /** The timer was set at j and has been neither set again, cleared nor due up to n. */
  ghost predicate Pending<A>(ops: seq<TimerOp<A>>, j: nat, n: nat) {
    && j < n <= |ops| && ops[j].Set?
    && forall k | j < k < n :: ops[k].Tick? && ops[k].now < ops[j].timeOut
  }

  lemma {:induction false} ArmedExactly<A>(ops: seq<TimerOp<A>>, n: nat)
    requires n <= |ops|
    ensures Replay(ops[..n]).Armed? <==> exists j: nat :: Pending(ops, j, n)
    ensures forall j: nat | Pending(ops, j, n) :: Replay(ops[..n]) == Armed(ops[j].timeOut, ops[j].action)
    decreases n
  {
    if n == 0 {
    } else {
      ArmedExactly(ops, n - 1);
      assert ops[..n][..n - 1] == ops[..n - 1];
      assert Replay(ops[..n]) == AfterOp(Replay(ops[..n - 1]), ops[n - 1]);
      if ops[n - 1].Set? {
        assert Pending(ops, n - 1, n);
      } else {
        forall j: nat | Pending(ops, j, n)
          ensures Replay(ops[..n]) == Armed(ops[j].timeOut, ops[j].action)
        {
          assert Pending(ops, j, n - 1);
        }
        if Replay(ops[..n]).Armed? {
          var j: nat :| Pending(ops, j, n - 1);
          assert Pending(ops, j, n);
        }
      }
    }
  }

  /** A tick runs an action exactly when the action was set before, not replaced since, is due, and
      has not been due at any earlier tick. */
  lemma FiresExactly<A>(ops: seq<TimerOp<A>>, n: nat, action: A)
    requires n < |ops| && ops[n].Tick?
    ensures Fires(Replay(ops[..n]), ops[n].now) == Some(action)
            <==> exists j: nat :: Pending(ops, j, n) && ops[j].action == action && ops[j].timeOut <= ops[n].now
  {
    ArmedExactly(ops, n);
  }

  lemma OnlyOne<A>(ops: seq<TimerOp<A>>, j: nat, m: nat, n: nat)
    requires j < n <= |ops| && ops[j].Set? && Pending(ops, m, n)
    requires forall k | j < k < n :: ops[k].Tick?
    ensures m == j
  {}

  /** An action that is never replaced runs once: at the first tick at or after its time. */
  lemma FiresOnce<A>(ops: seq<TimerOp<A>>, j: nat, n: nat)
    requires j < n < |ops| && ops[j].Set? && forall k | j < k <= n :: ops[k].Tick?
    ensures var first := ops[n].now >= ops[j].timeOut && forall k | j < k < n :: ops[k].now < ops[j].timeOut;
            Fires(Replay(ops[..n]), ops[n].now) == if first then Some(ops[j].action) else None
  {
    ArmedExactly(ops, n);
    if forall k | j < k < n :: ops[k].now < ops[j].timeOut {
      assert Pending(ops, j, n);
    } else {
      forall m: nat | Pending(ops, m, n) ensures false {
        OnlyOne(ops, j, m, n);
      }
    }
  }

  // ----- the schedule -----

  datatype Task<A> = Task(delay: int, action: A)

  datatype Plan<A> = Plan(tasks: seq<Task<A>>, next: nat, now: int, cyclic: bool, alarm: Alarm<A>)

  function Arming<A>(p: Plan<A>): Alarm<A>
    requires p.next < |p.tasks|
  {
    Armed(p.now + p.tasks[p.next].delay, p.tasks[p.next].action)
  }

  function ScheduleNext<A>(p: Plan<A>): Plan<A> {
    if p.next >= |p.tasks| then p
    else p.(next := if p.cyclic && p.next + 1 == |p.tasks| then 0 else p.next + 1, alarm := Arming(p))
  }

  function Execute<A>(p: Plan<A>, now: int): Plan<A> {
    p.(now := now, alarm := AfterOp(p.alarm, Tick(now)))
  }

  function Restarted<A>(p: Plan<A>): Plan<A> { ScheduleNext(p.(next := 0)) }

  function Constructed<A>(tasks: seq<Task<A>>): Plan<A> { Restarted(Plan(tasks, 0, 0, false, Idle)) }

  class Schedule<A> {
    const timer: Timer<A>
    var schedule: seq<Task<A>>
    var nextTask: nat
    var now: int
    var isCyclic: bool

    ghost predicate Valid()
      reads this, timer
    {
      timer.Valid() && nextTask <= |schedule|
    }

    ghost function Value(): Plan<A>
      reads this, timer
      requires Valid()
    {
      Plan(schedule, nextTask, now, isCyclic, timer.State())
    }

    constructor (tasks: seq<Task<A>>)
      ensures Valid() && fresh(timer) && Value() == Constructed(tasks)
    {
      timer := new Timer();
      schedule, nextTask, now, isCyclic := tasks, 0, 0, false;
      new;
      Reset();
    }

    method Reset()
      requires Valid()
      modifies this, timer
      ensures Valid() && Value() == Restarted(old(Value()))
    {
      nextTask := 0;
      ScheduleNextTask();
    }

    method SetCyclic(enabled: bool)
      requires Valid()
      modifies `isCyclic
      ensures Valid() && Value() == old(Value()).(cyclic := enabled)
    {
      isCyclic := enabled;
    }

    method ScheduleNextTask()
      requires Valid()
      modifies this, timer
      ensures Valid() && Value() == ScheduleNext(old(Value()))
    {
      if nextTask == |schedule| {
        return;
      }
      var currentTask := schedule[nextTask];
      nextTask := nextTask + 1;
      if isCyclic && nextTask == |schedule| {
        nextTask := 0;
      }
      timer.Set(now + currentTask.delay, currentTask.action);
    }

    method ExecuteTask(now: int) returns (run: Option<A>)
      requires Valid()
      modifies this, timer
      ensures Valid() && Value() == Execute(old(Value()), now)
      ensures run == Fires(old(Value()).alarm, now)
    {
      this.now := now;
      run := timer.ExecuteAction(now);
    }
  }

  // ----- the order in which tasks are armed -----

  datatype Op = Next | Run(now: int)

  function Apply<A>(p: Plan<A>, op: Op): Plan<A> {
    match op
    case Next => ScheduleNext(p)
    case Run(now) => Execute(p, now)
  }

  /** A plan with the tasks armed so far, by number, and the actions run so far. */
  datatype History<A> = History(plan: Plan<A>, armed: seq<nat>, fired: seq<A>)

  function Did<A>(h: History<A>, op: Op): History<A> {
    History(
      Apply(h.plan, op),
      if op.Next? && h.plan.next < |h.plan.tasks| then h.armed + [h.plan.next] else h.armed,
      if op.Run? && Fires(h.plan.alarm, op.now).Some? then h.fired + [h.plan.alarm.action] else h.fired)
  }

  function DidAll<A>(h: History<A>, ops: seq<Op>): History<A> {
    if ops == [] then h else Did(DidAll(h, ops[..|ops| - 1]), ops[|ops| - 1])
  }

  function Nexts(ops: seq<Op>): nat {
    if ops == [] then 0 else Nexts(ops[..|ops| - 1]) + (if ops[|ops| - 1].Next? then 1 else 0)
  }

  /** A schedule as constructed, with cycling switched on or left off afterwards. */
  function Created<A>(tasks: seq<Task<A>>, cyclic: bool): History<A> {
    History(Constructed(tasks).(cyclic := cyclic), if tasks == [] then [] else [0], [])
  }

  /** A schedule that is reset with its cycling already set. */
  function ResetWith<A>(tasks: seq<Task<A>>, now: int, cyclic: bool): History<A>
    requires tasks != []
  {
    History(Restarted(Plan(tasks, 0, now, cyclic, Idle)), [0], [])
  }

  ghost predicate Cycling<A>(h: History<A>) {
    && h.plan.cyclic && h.armed != [] && h.plan.tasks != []
    && h.plan.next == |h.armed| % |h.plan.tasks|
    && forall k | 0 <= k < |h.armed| :: h.armed[k] == k % |h.plan.tasks|
  }

  lemma NextModulo(k: nat, n: nat)
    requires n > 0
    ensures (k + 1) % n == if k % n + 1 == n then 0 else k % n + 1
  {
    var q, r := k / n, k % n;
    assert k == n * q + r;
    if r + 1 == n {
      assert k + 1 == n * (q + 1);
      Multiple(q + 1, n, 0);
    } else {
      Multiple(q, n, r + 1);
    }
  }

  lemma Multiple(q: nat, n: nat, r: nat)
    requires r < n
    ensures (n * q + r) % n == r
  {
    var x := n * q + r;
    var d := x / n;
    assert x == n * d + x % n;
    assert d > q ==> n * d >= n * (q + 1);
    assert d < q ==> n * d <= n * (q - 1);
  }

  lemma CyclingKept<A>(h: History<A>, op: Op)
    requires Cycling(h)
    ensures Cycling(Did(h, op)) && Did(h, op).plan.tasks == h.plan.tasks
    ensures |Did(h, op).armed| == |h.armed| + (if op.Next? then 1 else 0)
  {
    NextModulo(|h.armed|, |h.plan.tasks|);
  }

  lemma {:induction false} CyclesFrom<A>(h: History<A>, ops: seq<Op>)
    requires Cycling(h)
    ensures Cycling(DidAll(h, ops)) && DidAll(h, ops).plan.tasks == h.plan.tasks
    ensures |DidAll(h, ops).armed| == |h.armed| + Nexts(ops)
    decreases |ops|
  {
    if ops == [] {
    } else {
      CyclesFrom(h, ops[..|ops| - 1]);
      CyclingKept(DidAll(h, ops[..|ops| - 1]), ops[|ops| - 1]);
    }
  }

  /** Reset with cycling on, the k-th task armed is task k modulo n, and every call arms one. */
  lemma ResetCycles<A>(tasks: seq<Task<A>>, now: int, ops: seq<Op>)
    requires tasks != []
    ensures var h := DidAll(ResetWith(tasks, now, true), ops);
            |h.armed| == 1 + Nexts(ops) && forall k | 0 <= k < |h.armed| :: h.armed[k] == k % |tasks|
  {
    if |tasks| > 1 {
      Multiple(0, |tasks|, 1);
    }
    assert Cycling(ResetWith(tasks, now, true));
    CyclesFrom(ResetWith(tasks, now, true), ops);
  }

  ghost predicate InOrder<A>(h: History<A>, n: nat)
    requires n > 0
  {
    forall k | 0 <= k < |h.armed| :: h.armed[k] == k % n
  }

  lemma {:induction false} SingleTaskStops<A>(tasks: seq<Task<A>>, ops: seq<Op>)
    requires |tasks| == 1
    ensures var h := DidAll(Created(tasks, true), ops); h.armed == [0] && h.plan.next == 1 && h.plan.tasks == tasks
    decreases |ops|
  {
    if ops == [] {
    } else {
      SingleTaskStops(tasks, ops[..|ops| - 1]);
    }
  }

  /** With cycling switched on after construction the tasks cycle exactly when there are at least two:
      a single task leaves the iterator at the end, where no call arms anything any more. */
  lemma CreatedCyclesExactly<A>(tasks: seq<Task<A>>, ops: seq<Op>)
    requires tasks != []
    ensures var h := DidAll(Created(tasks, true), ops);
            |h.armed| == 1 + Nexts(ops) && InOrder(h, |tasks|) <==> |tasks| >= 2 || Nexts(ops) == 0
  {
    if |tasks| == 1 {
      SingleTaskStops(tasks, ops);
    } else {
      Multiple(0, |tasks|, 1);
      assert Cycling(Created(tasks, true));
      CyclesFrom(Created(tasks, true), ops);
    }
  }

  /** Without cycling every task is armed once, in order, and then nothing. */
  lemma {:induction false} NonCyclicArmsOnce<A>(tasks: seq<Task<A>>, ops: seq<Op>)
    ensures var h := DidAll(Created(tasks, false), ops);
            && |h.armed| == (if 1 + Nexts(ops) < |tasks| then 1 + Nexts(ops) else |tasks|)
            && (forall k | 0 <= k < |h.armed| :: h.armed[k] == k)
            && h.plan.next == |h.armed| && h.plan.tasks == tasks && !h.plan.cyclic
    decreases |ops|
  {
    if ops == [] {
    } else {
      NonCyclicArmsOnce(tasks, ops[..|ops| - 1]);
    }
  }

  // ----- the schedule that always cycles -----

  /** The other LIN test's schedule: the same, but without a switch and without a check for the end. */
  function DemoNext<A>(p: Plan<A>): Plan<A>
    requires p.next < |p.tasks|
  {
    p.(next := if p.next + 1 == |p.tasks| then 0 else p.next + 1, alarm := Arming(p))
  }

  ghost predicate DemoRun<A>(tasks: seq<Task<A>>, ps: seq<Plan<A>>, ops: seq<Op>) {
    && |ps| == |ops| + 1 && tasks != []
    && ps[0] == DemoNext(Plan(tasks, 0, 0, true, Idle))
    && forall k | 0 <= k < |ops| :: DemoStep(ps[k], ops[k], ps[k + 1])
  }

  ghost predicate DemoStep<A>(p: Plan<A>, op: Op, p': Plan<A>) {
    match op
    case Next => p.next < |p.tasks| && p' == DemoNext(p)
    case Run(now) => p' == Execute(p, now)
  }

  /** With at least two tasks, or reset after cycling was switched on, the two behave the same under
      any operations. */
  lemma {:induction false} RefinesDemo<A>(tasks: seq<Task<A>>, ps: seq<Plan<A>>, ops: seq<Op>, k: nat)
    requires DemoRun(tasks, ps, ops) && k <= |ops|
    ensures |tasks| >= 2 ==> DidAll(Created(tasks, true), ops[..k]).plan == ps[k]
    ensures DidAll(ResetWith(tasks, 0, true), ops[..k]).plan == ps[k]
    ensures ps[k].next < |ps[k].tasks| && ps[k].cyclic
    decreases k
  {
    if k == 0 {
    } else {
      RefinesDemo(tasks, ps, ops, k - 1);
      assert DemoStep(ps[k - 1], ops[k - 1], ps[k]);
      assert ops[..k][..k - 1] == ops[..k - 1];
    }
  }

  // ----- armed tasks are run -----

  /** The next task is scheduled only after the one before has run, as the master does on every frame
      status. */
  ghost predicate Disciplined<A>(h: History<A>, ops: seq<Op>) {
    ops == [] || (var front := ops[..|ops| - 1];
                  Disciplined(h, front) && (ops[|ops| - 1].Next? ==> DidAll(h, front).plan.alarm.Idle?))
  }

  ghost predicate Lossless<A>(h: History<A>) {
    && |h.fired| == |h.armed| - (if h.plan.alarm.Armed? then 1 else 0)
    && (forall k | 0 <= k < |h.armed| :: h.armed[k] < |h.plan.tasks|)
    && (forall k | 0 <= k < |h.fired| :: h.fired[k] == h.plan.tasks[h.armed[k]].action)
    && (h.plan.alarm.Armed? ==> h.plan.alarm.action == h.plan.tasks[h.armed[|h.armed| - 1]].action)
  }

  lemma RunLosesNothing<A>(h: History<A>, now: int)
    requires Lossless(h)
    ensures Lossless(Did(h, Run(now)))
  {
    var h' := Did(h, Run(now));
    assert h'.armed == h.armed && h'.plan.tasks == h.plan.tasks;
    assert h.fired <= h'.fired;
  }

  lemma NextLosesNothing<A>(h: History<A>)
    requires Lossless(h) && h.plan.alarm.Idle?
    ensures Lossless(Did(h, Next))
  {
    var h' := Did(h, Next);
    assert h'.fired == h.fired && h'.plan.tasks == h.plan.tasks;
    assert h.armed <= h'.armed;
  }

  lemma LosslessStep<A>(h: History<A>, op: Op)
    requires Lossless(h) && (op.Next? ==> h.plan.alarm.Idle?)
    ensures Lossless(Did(h, op))
  {
    match op
    case Next => NextLosesNothing(h);
    case Run(now) => RunLosesNothing(h, now);
  }

  lemma {:induction false} NothingIsLost<A>(h: History<A>, ops: seq<Op>)
    requires Lossless(h) && Disciplined(h, ops)
    ensures Lossless(DidAll(h, ops))
    decreases |ops|
  {
    if ops == [] {
    } else {
      NothingIsLost(h, ops[..|ops| - 1]);
      LosslessStep(DidAll(h, ops[..|ops| - 1]), ops[|ops| - 1]);
    }
  }

  /** A disciplined cyclic schedule runs its tasks in order, over and over, missing none. */
  lemma TasksRunInOrder<A>(tasks: seq<Task<A>>, ops: seq<Op>)
    requires |tasks| >= 2 && Disciplined(Created(tasks, true), ops)
    ensures var h := DidAll(Created(tasks, true), ops);
            && |h.fired| == Nexts(ops) + (if h.plan.alarm.Armed? then 0 else 1)
            && forall k | 0 <= k < |h.fired| :: h.fired[k] == tasks[k % |tasks|].action
  {
    CreatedCyclesExactly(tasks, ops);
    NothingIsLost(Created(tasks, true), ops);
    TasksStay(Created(tasks, true), ops);
  }

  lemma {:induction false} TasksStay<A>(h: History<A>, ops: seq<Op>)
    ensures DidAll(h, ops).plan.tasks == h.plan.tasks
    decreases |ops|
  {
    if ops == [] {
    } else {
      TasksStay(h, ops[..|ops| - 1]);
    }
  }
}
