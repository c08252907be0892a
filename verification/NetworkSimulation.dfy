/** The simulated LIN and CAN networks of the network-simulator tests: controllers register with a
    network, and what they request makes the network produce events for lists of receivers. */
module NetworkSimulation {

  datatype Production<E> = Production(event: E, receivers: seq<nat>)

  datatype Network<E> = Network(controllers: seq<nat>, produced: seq<Production<E>>)

  const EMPTY_LIN: Network<LinEvent> := Network([], [])
  const EMPTY_CAN: Network<CanEvent> := Network([], [])

  function Produced<E>(n: Network<E>, event: E, receivers: seq<nat>): Network<E> {
    n.(produced := n.produced + [Production(event, receivers)])
  }

  // ----- LIN -----

  const GO_TO_SLEEP := 60

  datatype LinEvent = FrameStatus(id: int) | HeaderRequest(id: int) | WakeupEvent

  datatype LinOp =
    | Provide(controller: nat)
    | Removed(controller: nat)
    | OnFrameRequest(id: int)
    | OnFrameHeaderRequest(id: int)
    | OnWakeupPulse
    | OnControllerConfig
    | OnFrameResponseUpdate
    | OnControllerStatusUpdate(sleepPending: bool)

  /** A frame status is produced, and with which identifier: that of a go-to-sleep frame is kept, the
      others are left at zero. */
  predicate Triggers(op: LinOp, dynamic: bool) {
    match op
    case OnFrameRequest(id) => id != GO_TO_SLEEP
    case OnFrameResponseUpdate => dynamic
    case OnControllerStatusUpdate(sleepPending) => sleepPending
    case _ => false
  }

  function LinApply(n: Network<LinEvent>, op: LinOp, dynamic: bool): Network<LinEvent> {
    match op
    case Provide(controller) => n.(controllers := n.controllers + [controller])
    case Removed(_) => n
    case OnFrameRequest(id) => if id == GO_TO_SLEEP then n else Produced(n, FrameStatus(0), n.controllers)
    case OnFrameHeaderRequest(id) => Produced(n, HeaderRequest(id), n.controllers)
    case OnWakeupPulse => Produced(n, WakeupEvent, n.controllers)
    case OnControllerConfig => n
    case OnFrameResponseUpdate => if dynamic then Produced(n, FrameStatus(0), n.controllers) else n
    case OnControllerStatusUpdate(sleepPending) =>
      if sleepPending then Produced(n, FrameStatus(GO_TO_SLEEP), n.controllers) else n
  }

  class SimulatedLinNetwork {
    const isLinDynamic: bool
    var controllerDescriptors: seq<nat>
    var produced: seq<Production<LinEvent>>

    ghost function Value(): Network<LinEvent>
      reads this
    {
      Network(controllerDescriptors, produced)
    }

    constructor (isLinDynamic: bool)
      ensures this.isLinDynamic == isLinDynamic && Value() == EMPTY_LIN
    {
      this.isLinDynamic := isLinDynamic;
      controllerDescriptors, produced := [], [];
    }

    method ProvideSimulatedController(controller: nat)
      modifies this
      ensures Value() == LinApply(old(Value()), Provide(controller), isLinDynamic)
    {
      controllerDescriptors := controllerDescriptors + [controller];
    }

    method OnFrameRequest(id: int)
      modifies this
      ensures Value() == LinApply(old(Value()), LinOp.OnFrameRequest(id), isLinDynamic)
    {
      if id == GO_TO_SLEEP {
        return;
      }
      Produce(FrameStatus(0), controllerDescriptors);
    }

    method OnFrameHeaderRequest(id: int)
      modifies this
      ensures Value() == LinApply(old(Value()), LinOp.OnFrameHeaderRequest(id), isLinDynamic)
    {
      Produce(HeaderRequest(id), controllerDescriptors);
    }

    method OnWakeupPulse()
      modifies this
      ensures Value() == LinApply(old(Value()), LinOp.OnWakeupPulse, isLinDynamic)
    {
      Produce(WakeupEvent, controllerDescriptors);
    }

    method OnFrameResponseUpdate()
      modifies this
      ensures Value() == LinApply(old(Value()), LinOp.OnFrameResponseUpdate, isLinDynamic)
    {
      if isLinDynamic {
        Produce(FrameStatus(0), controllerDescriptors);
      }
    }

    method OnControllerStatusUpdate(sleepPending: bool)
      modifies this
      ensures Value() == LinApply(old(Value()), LinOp.OnControllerStatusUpdate(sleepPending), isLinDynamic)
    {
      if sleepPending {
        Produce(FrameStatus(GO_TO_SLEEP), controllerDescriptors);
      }
    }

    method Produce(event: LinEvent, receivers: seq<nat>)
      modifies `produced
      ensures Value() == Produced(old(Value()), event, receivers)
    {
      produced := produced + [Production(event, receivers)];
    }
  }

  function LinAll(ops: seq<LinOp>, dynamic: bool): Network<LinEvent> {
    if ops == [] then EMPTY_LIN else LinApply(LinAll(ops[..|ops| - 1], dynamic), ops[|ops| - 1], dynamic)
  }

  /** How often a controller appears in a list. */
  function Times(s: seq<nat>, controller: nat): nat {
    if s == [] then 0
    else Times(s[..|s| - 1], controller) + (if s[|s| - 1] == controller then 1 else 0)
  }

  /** How many frame status events a controller's handler gets. */
  function StatusesAt(ps: seq<Production<LinEvent>>, controller: nat): nat {
    if ps == [] then 0
    else
      var p := ps[|ps| - 1];
      StatusesAt(ps[..|ps| - 1], controller) + (if p.event.FrameStatus? then Times(p.receivers, controller) else 0)
  }

  function TriggersIn(ops: seq<LinOp>, dynamic: bool): nat {
    if ops == [] then 0
    else TriggersIn(ops[..|ops| - 1], dynamic) + (if Triggers(ops[|ops| - 1], dynamic) then 1 else 0)
  }

  /** For every registration of the controller, the triggers that come after it. */
  function TriggersAfterRegistering(ops: seq<LinOp>, dynamic: bool, controller: nat): nat {
    if ops == [] then 0
    else (if ops[0] == Provide(controller) then TriggersIn(ops[1..], dynamic) else 0)
         + TriggersAfterRegistering(ops[1..], dynamic, controller)
  }

  function Registrations(ops: seq<LinOp>, controller: nat): nat {
    if ops == [] then 0
    else (if ops[0] == Provide(controller) then 1 else 0) + Registrations(ops[1..], controller)
  }

  lemma {:induction false} TriggersInAppend(ops: seq<LinOp>, op: LinOp, dynamic: bool)
    ensures TriggersIn(ops + [op], dynamic) == TriggersIn(ops, dynamic) + (if Triggers(op, dynamic) then 1 else 0)
  {
    assert (ops + [op])[..|ops|] == ops;
  }

  lemma {:induction false} RegisteringAppend(ops: seq<LinOp>, op: LinOp, dynamic: bool, c: nat)
    ensures Registrations(ops + [op], c) == Registrations(ops, c) + (if op == Provide(c) then 1 else 0)
    ensures TriggersAfterRegistering(ops + [op], dynamic, c)
            == TriggersAfterRegistering(ops, dynamic, c) + (if Triggers(op, dynamic) then Registrations(ops, c) else 0)
    decreases |ops|
  {
    if ops == [] {
      assert ([op])[1..] == [];
    } else {
      assert (ops + [op])[1..] == ops[1..] + [op];
      RegisteringAppend(ops[1..], op, dynamic, c);
      TriggersInAppend(ops[1..], op, dynamic);
    }
  }

  lemma TimesAppend(s: seq<nat>, x: nat, c: nat)
    ensures Times(s + [x], c) == Times(s, c) + (if x == c then 1 else 0)
  {
    assert (s + [x])[..|s|] == s;
  }

  lemma StatusesAppend(ps: seq<Production<LinEvent>>, p: Production<LinEvent>, c: nat)
    ensures StatusesAt(ps + [p], c)
            == StatusesAt(ps, c) + (if p.event.FrameStatus? then Times(p.receivers, c) else 0)
  {
    assert (ps + [p])[..|ps|] == ps;
  }

  /** One operation: a trigger reaches every controller registered at that moment, as often as it is
      registered. */
  lemma StatusesStep(n: Network<LinEvent>, op: LinOp, dynamic: bool, c: nat)
    ensures var n' := LinApply(n, op, dynamic);
            && StatusesAt(n'.produced, c)
               == StatusesAt(n.produced, c) + (if Triggers(op, dynamic) then Times(n.controllers, c) else 0)
            && Times(n'.controllers, c) == Times(n.controllers, c) + (if op == Provide(c) then 1 else 0)
  {
    var n' := LinApply(n, op, dynamic);
    if op.Provide? {
      TimesAppend(n.controllers, op.controller, c);
    }
    if |n'.produced| > |n.produced| {
      StatusesAppend(n.produced, n'.produced[|n.produced|], c);
    }
  }

  /** Summed over any trace, the frame status events a controller gets are the triggers that come after
      it has registered; that it is removed makes no difference. */
  lemma {:induction false} EachControllerHears(ops: seq<LinOp>, dynamic: bool, c: nat)
    ensures StatusesAt(LinAll(ops, dynamic).produced, c) == TriggersAfterRegistering(ops, dynamic, c)
    ensures Times(LinAll(ops, dynamic).controllers, c) == Registrations(ops, c)
    decreases |ops|
  {
    if ops == [] {
    } else {
      var front, op := ops[..|ops| - 1], ops[|ops| - 1];
      assert ops == front + [op];
      EachControllerHears(front, dynamic, c);
      StatusesStep(LinAll(front, dynamic), op, dynamic, c);
      RegisteringAppend(front, op, dynamic, c);
    }
  }

  /** The same counted the other way round: for every trigger, the controllers registered by then. */
  function StatusDeliveries(ps: seq<Production<LinEvent>>): nat {
    if ps == [] then 0
    else
      var p := ps[|ps| - 1];
      StatusDeliveries(ps[..|ps| - 1]) + (if p.event.FrameStatus? then |p.receivers| else 0)
  }

  function Registered(ops: seq<LinOp>): nat {
    if ops == [] then 0 else Registered(ops[..|ops| - 1]) + (if ops[|ops| - 1].Provide? then 1 else 0)
  }

  function RegisteredAtTriggers(ops: seq<LinOp>, dynamic: bool): nat {
    if ops == [] then 0
    else
      var front := ops[..|ops| - 1];
      RegisteredAtTriggers(front, dynamic) + (if Triggers(ops[|ops| - 1], dynamic) then Registered(front) else 0)
  }

  lemma DeliveriesStep(n: Network<LinEvent>, op: LinOp, dynamic: bool)
    ensures var n' := LinApply(n, op, dynamic);
            && StatusDeliveries(n'.produced)
               == StatusDeliveries(n.produced) + (if Triggers(op, dynamic) then |n.controllers| else 0)
            && |n'.controllers| == |n.controllers| + (if op.Provide? then 1 else 0)
  {
    var n' := LinApply(n, op, dynamic);
    if |n'.produced| > |n.produced| {
      assert n'.produced[..|n.produced|] == n.produced;
    }
  }

  lemma {:induction false} DeliveriesByTrigger(ops: seq<LinOp>, dynamic: bool)
    ensures StatusDeliveries(LinAll(ops, dynamic).produced) == RegisteredAtTriggers(ops, dynamic)
    ensures |LinAll(ops, dynamic).controllers| == Registered(ops)
    decreases |ops|
  {
    if ops == [] {
    } else {
      DeliveriesByTrigger(ops[..|ops| - 1], dynamic);
      DeliveriesStep(LinAll(ops[..|ops| - 1], dynamic), ops[|ops| - 1], dynamic);
    }
  }

  lemma {:induction false} OnlyRegistered(setup: seq<LinOp>, dynamic: bool)
    requires forall k | 0 <= k < |setup| :: setup[k].Provide?
    ensures StatusDeliveries(LinAll(setup, dynamic).produced) == 0
    ensures |LinAll(setup, dynamic).controllers| == |setup|
    decreases |setup|
  {
    if setup == [] {
    } else {
      OnlyRegistered(setup[..|setup| - 1], dynamic);
      DeliveriesStep(LinAll(setup[..|setup| - 1], dynamic), setup[|setup| - 1], dynamic);
    }
  }

  /** All controllers registered first, then nothing but requests: every trigger reaches all of them,
      as the test's own expectation multiplies out. */
  lemma {:induction false} RegisteredFirst(setup: seq<LinOp>, ops: seq<LinOp>, dynamic: bool)
    requires forall k | 0 <= k < |setup| :: setup[k].Provide?
    requires forall k | 0 <= k < |ops| :: !ops[k].Provide?
    ensures StatusDeliveries(LinAll(setup + ops, dynamic).produced) == TriggersIn(ops, dynamic) * |setup|
    ensures |LinAll(setup + ops, dynamic).controllers| == |setup|
    decreases |ops|
  {
    if ops == [] {
      OnlyRegistered(setup, dynamic);
      assert setup + ops == setup;
    } else {
      var front, op := ops[..|ops| - 1], ops[|ops| - 1];
      RegisteredFirst(setup, front, dynamic);
      assert (setup + ops)[..|setup + ops| - 1] == setup + front && (setup + ops)[|setup + ops| - 1] == op;
      DeliveriesStep(LinAll(setup + front, dynamic), op, dynamic);
      OneMore(TriggersIn(front, dynamic), |setup|);
    }
  }

  lemma OneMore(a: nat, b: nat)
    ensures (a + 1) * b == a * b + b
  {}

  // ----- going to sleep -----

  /** What GoToSleep on a controller sends: the go-to-sleep frame and the pending status. */
  const GOING_TO_SLEEP: seq<LinOp> := [OnFrameRequest(GO_TO_SLEEP), OnControllerStatusUpdate(true)]

  function SleepFrames(ps: seq<Production<LinEvent>>): nat {
    if ps == [] then 0
    else SleepFrames(ps[..|ps| - 1]) + (if ps[|ps| - 1].event == FrameStatus(GO_TO_SLEEP) then 1 else 0)
  }

  function SleepUpdates(ops: seq<LinOp>): nat {
    if ops == [] then 0
    else SleepUpdates(ops[..|ops| - 1]) + (if ops[|ops| - 1] == OnControllerStatusUpdate(true) then 1 else 0)
  }

  /** Go-to-sleep frames are produced for pending updates only, never for the frame request itself. */
  lemma {:induction false} SleepFramesExactly(ops: seq<LinOp>, dynamic: bool)
    ensures SleepFrames(LinAll(ops, dynamic).produced) == SleepUpdates(ops)
    decreases |ops|
  {
    if ops == [] {
    } else {
      var front, op := ops[..|ops| - 1], ops[|ops| - 1];
      SleepFramesExactly(front, dynamic);
      var n, n' := LinAll(front, dynamic), LinAll(ops, dynamic);
      if |n'.produced| > |n.produced| {
        assert n'.produced[..|n'.produced| - 1] == n.produced;
      }
    }
  }

  /** So one call of GoToSleep is broadcast exactly once, whatever happened before. */
  lemma GoToSleepOnce(ops: seq<LinOp>, dynamic: bool)
    ensures var n, n' := LinAll(ops, dynamic), LinAll(ops + GOING_TO_SLEEP, dynamic);
            && n'.controllers == n.controllers
            && n'.produced == n.produced + [Production(FrameStatus(GO_TO_SLEEP), n.controllers)]
  {
    var one := ops + [GOING_TO_SLEEP[0]];
    assert (ops + GOING_TO_SLEEP)[..|ops| + 1] == one && one[..|ops|] == ops;
    assert LinAll(ops + GOING_TO_SLEEP, dynamic) == LinApply(LinAll(one, dynamic), GOING_TO_SLEEP[1], dynamic);
  }

  // ----- CAN -----

  datatype Frame = Frame(canId: int, payload: seq<int>)

  datatype CanEvent =
    | Transmitted(canId: int, userContext: int)
    | Received(frame: Frame, userContext: int)
    | Started | BusOff

  datatype CanOp =
    | Register(controller: nat)
    | SetControllerMode(sender: nat)
    | SetBaudrate(sender: nat)
    | Request(sender: nat, frame: Frame, userContext: int)

  function CanApply(n: Network<CanEvent>, op: CanOp): Network<CanEvent> {
    match op
    case Register(controller) => n.(controllers := n.controllers + [controller])
    case SetControllerMode(sender) => Produced(Produced(n, Started, [sender]), BusOff, [sender])
    case SetBaudrate(_) => n
    case Request(sender, frame, userContext) =>
      Produced(Produced(n, Transmitted(frame.canId, userContext), [sender]), Received(frame, userContext), n.controllers)
  }

  class SimulatedCanNetwork {
    var controllerDescriptors: seq<nat>
    var produced: seq<Production<CanEvent>>

    ghost function Value(): Network<CanEvent>
      reads this
    {
      Network(controllerDescriptors, produced)
    }

    constructor ()
      ensures Value() == EMPTY_CAN
    {
      controllerDescriptors, produced := [], [];
    }

    method ProvideSimulatedController(controller: nat)
      modifies this
      ensures Value() == CanApply(old(Value()), Register(controller))
    {
      controllerDescriptors := controllerDescriptors + [controller];
    }

    method OnSetControllerMode(sender: nat)
      modifies this
      ensures Value() == CanApply(old(Value()), SetControllerMode(sender))
    {
      Produce(Started, [sender]);
      Produce(BusOff, [sender]);
    }

    method OnFrameRequest(sender: nat, frame: Frame, userContext: int)
      modifies this
      ensures Value() == CanApply(old(Value()), Request(sender, frame, userContext))
    {
      Produce(Transmitted(frame.canId, userContext), [sender]);
      Produce(Received(frame, userContext), controllerDescriptors);
    }

    method Produce(event: CanEvent, receivers: seq<nat>)
      modifies `produced
      ensures Value() == Produced(old(Value()), event, receivers)
    {
      produced := produced + [Production(event, receivers)];
    }
  }

  function CanAll(ops: seq<CanOp>): Network<CanEvent> {
    if ops == [] then EMPTY_CAN else CanApply(CanAll(ops[..|ops| - 1]), ops[|ops| - 1])
  }

  /** What one controller's handlers see, in order. */
  function SeenBy(ps: seq<Production<CanEvent>>, controller: nat): seq<CanEvent> {
    if ps == [] then []
    else
      var p := ps[|ps| - 1];
      SeenBy(ps[..|ps| - 1], controller) + Copies(p.event, Times(p.receivers, controller))
  }

  function Copies(event: CanEvent, times: nat): seq<CanEvent> { seq(times, _ => event) }

  /** What it should see: its own acknowledgements and state changes, and the frames of everybody since
      it has registered, in the order of the requests. */
  function ShouldSee(ops: seq<CanOp>, c: nat): seq<CanEvent> {
    if ops == [] then []
    else
      var front := ops[..|ops| - 1];
      ShouldSee(front, c) + Adds(ops[|ops| - 1], c, IsRegistered(front, c))
  }

  predicate IsRegistered(ops: seq<CanOp>, c: nat) {
    exists k :: 0 <= k < |ops| && ops[k] == Register(c)
  }

  /** Every controller registers at most once. */
  ghost predicate RegisteredOnce(ops: seq<CanOp>) {
    forall i, j | 0 <= i < j < |ops| && ops[i].Register? && ops[j].Register? :: ops[i] != ops[j]
  }

  lemma SeenAppend(ps: seq<Production<CanEvent>>, event: CanEvent, receivers: seq<nat>, c: nat)
    ensures SeenBy(ps + [Production(event, receivers)], c) == SeenBy(ps, c) + Copies(event, Times(receivers, c))
  {
    assert (ps + [Production(event, receivers)])[..|ps|] == ps;
  }

  lemma TimesSingle(sender: nat, c: nat)
    ensures Times([sender], c) == if sender == c then 1 else 0
  {
    assert ([sender])[..0] == [];
  }

  /** What one operation adds to what a controller sees, given whether it is registered. */
  function Adds(op: CanOp, c: nat, registered: bool): seq<CanEvent> {
    match op
    case Request(sender, frame, userContext) =>
      (if sender == c then [Transmitted(frame.canId, userContext)] else [])
      + (if registered then [CanEvent.Received(frame, userContext)] else [])
    case SetControllerMode(sender) => if sender == c then [Started, BusOff] else []
    case _ => []
  }

  lemma RequestAdds(n: Network<CanEvent>, op: CanOp, c: nat, registered: bool)
    requires op.Request? && Times(n.controllers, c) == if registered then 1 else 0
    ensures SeenBy(CanApply(n, op).produced, c) == SeenBy(n.produced, c) + Adds(op, c, registered)
  {
    TimesSingle(op.sender, c);
    var ack := Transmitted(op.frame.canId, op.userContext);
    var frame := CanEvent.Received(op.frame, op.userContext);
    SeenAppend(n.produced, ack, [op.sender], c);
    SeenAppend(n.produced + [Production(ack, [op.sender])], frame, n.controllers, c);
    assert Copies(ack, Times([op.sender], c)) + Copies(frame, Times(n.controllers, c)) == Adds(op, c, registered);
  }

  lemma OperationAdds(n: Network<CanEvent>, op: CanOp, c: nat, registered: bool)
    requires Times(n.controllers, c) == if registered then 1 else 0
    ensures SeenBy(CanApply(n, op).produced, c) == SeenBy(n.produced, c) + Adds(op, c, registered)
  {
    match op
    case Register(_) =>
    case SetBaudrate(_) =>
    case Request(_, _, _) => RequestAdds(n, op, c, registered);
    case SetControllerMode(sender) =>
      TimesSingle(sender, c);
      SeenAppend(n.produced, Started, [sender], c);
      SeenAppend(n.produced + [Production(Started, [sender])], BusOff, [sender], c);
  }

  lemma RegisteredAppend(front: seq<CanOp>, op: CanOp, c: nat)
    ensures IsRegistered(front + [op], c) <==> IsRegistered(front, c) || op == Register(c)
  {
    var ops := front + [op];
    if IsRegistered(front, c) {
      var k :| 0 <= k < |front| && front[k] == Register(c);
      assert ops[k] == Register(c);
    }
    if op == Register(c) {
      assert ops[|front|] == Register(c);
    }
  }

  lemma RegistersOnce(front: seq<CanOp>, op: CanOp, c: nat)
    requires RegisteredOnce(front + [op])
    ensures RegisteredOnce(front) && (op == Register(c) ==> !IsRegistered(front, c))
  {
    var ops := front + [op];
    forall i, j | 0 <= i < j < |front| && front[i].Register? && front[j].Register? ensures front[i] != front[j] {
      assert ops[i] == front[i] && ops[j] == front[j];
    }
    if k :| 0 <= k < |front| && front[k] == Register(c) {
      assert ops[k] == front[k] && ops[|front|] == op;
    }
  }

  /** Over any trace a controller's handlers see exactly that, in that order. */
  lemma {:induction false} EachCanControllerSees(ops: seq<CanOp>, c: nat)
    requires RegisteredOnce(ops)
    ensures SeenBy(CanAll(ops).produced, c) == ShouldSee(ops, c)
    ensures Times(CanAll(ops).controllers, c) == if IsRegistered(ops, c) then 1 else 0
    decreases |ops|
  {
    if ops == [] {
    } else {
      var front, op := ops[..|ops| - 1], ops[|ops| - 1];
      assert ops == front + [op];
      RegistersOnce(front, op, c);
      RegisteredAppend(front, op, c);
      EachCanControllerSees(front, c);
      OperationAdds(CanAll(front), op, c, IsRegistered(front, c));
      if op.Register? {
        TimesAppend(CanAll(front).controllers, op.controller, c);
      }
    }
  }
}
