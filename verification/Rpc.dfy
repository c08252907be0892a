/** One RPC client and one server that count their calls: the client calls, the server replies with
    every byte raised by 100 and checks the argument, the client checks the result. Requests and
    replies each travel over a link that keeps the order. */
module Rpc {
  import opened Basics
  import opened Matching

  const INCREMENT := 100

  // ----- the client's and the server's records -----

  datatype ClientConfig = ClientConfig(size: nat, numCalls: int, numCallsToReturn: int, numCallsToTimeout: int)

  predicate ValidClient(c: ClientConfig) {
    && ValidLimit(c.numCalls) && ValidLimit(c.numCallsToReturn) && ValidLimit(c.numCallsToTimeout)
    && ValidLimit(c.numCallsToReturn + c.numCallsToTimeout)
  }

  datatype Client = Client(calls: int, returned: int, timedOut: int, allCalled: bool, allReturned: bool,
                           e: Expectation, failures: nat)

  function Called(c: ClientConfig, s: Client): Client {
    if s.allCalled then s
    else s.(calls := (s.calls + 1) % W, allCalled := (s.calls + 1) % W >= c.numCalls)
  }

  function Returned(c: ClientConfig, s: Client, data: seq<byte>): Client {
    if s.allReturned then s
    else
      var v := Compare(s.e, s.returned + INCREMENT, data);
      var n := (s.returned + 1) % W;
      s.(returned := n, e := v.rest, failures := if v.ok then s.failures else s.failures + 1,
         allReturned := (n + s.timedOut) % W >= (c.numCallsToReturn + c.numCallsToTimeout) % W)
  }

  function TimedOut(c: ClientConfig, s: Client): Client {
    if s.allReturned then s
    else
      var n := (s.timedOut + 1) % W;
      s.(timedOut := n, allReturned := (s.returned + n) % W >= (c.numCallsToReturn + c.numCallsToTimeout) % W)
  }

  class RpcClientState {
    const info: ClientConfig
    var expectation: Expectation
    var callCounter: int
    var callReturnedSuccessCounter: int
    var callReturnedTimeoutCounter: int
    var allCalled: bool
    var allCallsReturned: bool
    var failures: nat

    ghost function Value(): Client
      reads this
    {
      Client(callCounter, callReturnedSuccessCounter, callReturnedTimeoutCounter, allCalled, allCallsReturned,
             expectation, failures)
    }

    constructor (info: ClientConfig, expectation: Expectation)
      ensures this.info == info && Value() == Client(0, 0, 0, false, false, expectation, 0)
    {
      this.info, this.expectation := info, expectation;
      callCounter, callReturnedSuccessCounter, callReturnedTimeoutCounter := 0, 0, 0;
      allCalled, allCallsReturned, failures := false, false, 0;
    }

    method Call(link: seq<seq<byte>>) returns (link': seq<seq<byte>>)
      modifies this
      ensures Value() == Called(info, old(Value()))
      ensures link' == if old(allCalled) then link else link + [Bytes(info.size, old(callCounter))]
    {
      link' := link;
      if !allCalled {
        link' := link + [Bytes(info.size, callCounter)];
        callCounter := (callCounter + 1) % W;
        if callCounter >= info.numCalls {
          allCalled := true;
        }
      }
    }

    /** The handler registered for a successful return. */
    method OnCallReturned(data: seq<byte>)
      modifies this
      ensures Value() == Returned(info, old(Value()), data)
    {
      if !allCallsReturned {
        match expectation {
          case Increasing(size) =>
            if data != Bytes(size, callReturnedSuccessCounter + INCREMENT) {
              failures := failures + 1;
            }
          case Unordered(expected) =>
            var found, rest := FindAndErase(expected, data);
            if !found {
              failures := failures + 1;
            }
            expectation := Unordered(rest);
        }
        callReturnedSuccessCounter := (callReturnedSuccessCounter + 1) % W;
        CheckReturned();
      }
    }

    method OnCallTimeout()
      modifies this
      ensures Value() == TimedOut(info, old(Value()))
    {
      if !allCallsReturned {
        callReturnedTimeoutCounter := (callReturnedTimeoutCounter + 1) % W;
        CheckReturned();
      }
    }

    method CheckReturned()
      modifies `allCallsReturned
      ensures allCallsReturned ==
              (old(allCallsReturned) || (callReturnedSuccessCounter + callReturnedTimeoutCounter) % W
                                        >= (info.numCallsToReturn + info.numCallsToTimeout) % W)
    {
      if (callReturnedSuccessCounter + callReturnedTimeoutCounter) % W
         >= (info.numCallsToReturn + info.numCallsToTimeout) % W {
        allCallsReturned := true;
      }
    }
  }

  function Raised(argument: seq<byte>): seq<byte> {
    seq(|argument|, i requires 0 <= i < |argument| => (argument[i] + INCREMENT) % 256)
  }

  /** What the server replies. */
  method Reply(argument: seq<byte>) returns (data: seq<byte>)
    ensures data == Raised(argument)
  {
    var buffer := new byte[|argument|](i requires 0 <= i < |argument| => argument[i]);
    var i := 0;
    while i < buffer.Length
      invariant 0 <= i <= buffer.Length
      invariant forall k | 0 <= k < i :: buffer[k] == (argument[k] + INCREMENT) % 256
      invariant forall k | i <= k < buffer.Length :: buffer[k] == argument[k]
    {
      buffer[i] := (buffer[i] + INCREMENT) % 256;
      i := i + 1;
    }
    data := buffer[..];
  }

  lemma RaisedBytes(size: nat, k: nat)
    ensures Raised(Bytes(size, k)) == Bytes(size, k + INCREMENT)
  {}

  // ----- the two connected -----

  datatype Config = Config(client: ClientConfig, numCallsToReceive: int, doNotReply: bool)

  predicate Valid(c: Config) { ValidClient(c.client) && ValidLimit(c.numCallsToReceive) }

  /** `served` and `answered` count the requests and replies taken from the links, `expired` the calls
      that have timed out. */
  datatype System = System(client: Client, server: Reception, requests: seq<seq<byte>>, replies: seq<seq<byte>>,
                           served: nat, answered: nat, expired: nat)

  function Start(c: Config): System {
    System(Client(0, 0, 0, false, false, Increasing(c.client.size), 0),
           Fresh(c.numCallsToReceive, Increasing(c.client.size)), [], [], 0, 0, 0)
  }

  datatype Act = Call | Serve | Return | Timeout

  /** A call times out only if it is never answered. */
  predicate Enabled(c: Config, s: System, a: Act) {
    match a
    case Call => true
    case Serve => s.requests != []
    case Return => s.replies != []
    case Timeout => c.client.numCallsToTimeout > 0 && c.doNotReply && s.expired < s.client.calls
  }

  function Apply(c: Config, s: System, a: Act): System
    requires Enabled(c, s, a)
  {
    match a
    case Call =>
      s.(client := Called(c.client, s.client),
         requests := if s.client.allCalled then s.requests
                     else s.requests + [Bytes(c.client.size, s.client.calls)])
    case Serve =>
      s.(server := Received(s.server, s.requests[0]), requests := s.requests[1..], served := s.served + 1,
         replies := if c.doNotReply then s.replies else s.replies + [Raised(s.requests[0])])
    case Return =>
      s.(client := Returned(c.client, s.client, s.replies[0]), replies := s.replies[1..], answered := s.answered + 1)
    case Timeout => s.(client := TimedOut(c.client, s.client), expired := s.expired + 1)
  }

  ghost predicate Step(c: Config, s: System, a: Act, s': System) {
    Enabled(c, s, a) && s' == Apply(c, s, a)
  }

  ghost predicate Run(c: Config, ss: seq<System>, acts: seq<Act>) {
    && Valid(c) && |ss| == |acts| + 1 && ss[0] == Start(c)
    && forall k | 0 <= k < |acts| :: Step(c, ss[k], acts[k], ss[k + 1])
  }

  // ----- the invariant -----

  ghost predicate Conserved(c: Config, s: System) {
    && s.client.calls == |s.requests| + s.served
    && (if c.doNotReply then s.replies == [] && s.answered == 0 else s.served == |s.replies| + s.answered)
  }

  ghost predicate InOrder(c: Config, s: System) {
    && (forall k | 0 <= k < |s.requests| :: s.requests[k] == Bytes(c.client.size, s.served + k))
    && (forall k | 0 <= k < |s.replies| :: s.replies[k] == Bytes(c.client.size, s.answered + k + INCREMENT))
  }

  ghost predicate ServerOk(c: Config, s: System) {
    && s.server.limit == c.numCallsToReceive && s.server.e == Increasing(c.client.size) && s.server.failures == 0
    && s.server.counter == Min(s.served, AtLeastOne(c.numCallsToReceive))
    && (s.server.all <==> s.served >= AtLeastOne(c.numCallsToReceive))
  }

  function ToReturn(c: Config): int { c.client.numCallsToReturn + c.client.numCallsToTimeout }

  ghost predicate ClientOk(c: Config, s: System) {
    && 0 <= s.client.calls <= AtLeastOne(c.client.numCalls)
    && (s.client.allCalled <==> s.client.calls == AtLeastOne(c.client.numCalls))
    && s.client.e == Increasing(c.client.size) && s.client.failures == 0
    && (s.client.allReturned <==> s.client.returned + s.client.timedOut == AtLeastOne(ToReturn(c)))
    && 0 <= s.client.returned && 0 <= s.client.timedOut
    && s.client.returned + s.client.timedOut <= AtLeastOne(ToReturn(c))
    && (if c.doNotReply then
          && s.client.returned == 0 && s.client.timedOut == Min(s.expired, AtLeastOne(ToReturn(c)))
          && s.expired <= s.client.calls && (c.client.numCallsToTimeout == 0 ==> s.expired == 0)
        else s.client.timedOut == 0 && s.expired == 0 && s.client.returned == Min(s.answered, AtLeastOne(ToReturn(c))))
  }

  lemma ConservedKept(c: Config, s: System, a: Act)
    requires Valid(c) && Conserved(c, s) && ClientOk(c, s) && Enabled(c, s, a)
    ensures Conserved(c, Apply(c, s, a))
  {}

  lemma ServeInOrder(c: Config, s: System)
    requires Conserved(c, s) && InOrder(c, s) && Enabled(c, s, Serve)
    ensures InOrder(c, Apply(c, s, Serve))
  {
    var s' := Apply(c, s, Serve);
    assert s.requests[0] == Bytes(c.client.size, s.served);
    RaisedBytes(c.client.size, s.served);
    forall k | 0 <= k < |s'.requests| ensures s'.requests[k] == Bytes(c.client.size, s'.served + k) {
      assert s'.requests[k] == s.requests[k + 1];
    }
  }

  lemma InOrderKept(c: Config, s: System, a: Act)
    requires Conserved(c, s) && InOrder(c, s) && Enabled(c, s, a)
    ensures InOrder(c, Apply(c, s, a))
  {
    match a
    case Serve => ServeInOrder(c, s);
    case _ =>
  }

  lemma ServerKept(c: Config, s: System, a: Act)
    requires Valid(c) && InOrder(c, s) && ServerOk(c, s) && Enabled(c, s, a)
    ensures ServerOk(c, Apply(c, s, a))
  {}

  lemma ReturnKept(c: Config, s: System)
    requires Valid(c) && Conserved(c, s) && InOrder(c, s) && ClientOk(c, s) && Enabled(c, s, Return)
    ensures ClientOk(c, Apply(c, s, Return))
  {
    assert !c.doNotReply && s.replies[0] == Bytes(c.client.size, s.answered + INCREMENT);
    assert Apply(c, s, Return).expired == 0;
  }

  lemma TimeoutKept(c: Config, s: System)
    requires Valid(c) && ClientOk(c, s) && Enabled(c, s, Timeout)
    ensures ClientOk(c, Apply(c, s, Timeout))
  {}

  lemma CallKept(c: Config, s: System)
    requires Valid(c) && ClientOk(c, s)
    ensures ClientOk(c, Apply(c, s, Call))
  {}

  lemma ClientKept(c: Config, s: System, a: Act)
    requires Valid(c) && Conserved(c, s) && InOrder(c, s) && ClientOk(c, s) && Enabled(c, s, a)
    ensures ClientOk(c, Apply(c, s, a))
  {
    match a
    case Call => CallKept(c, s);
    case Return => ReturnKept(c, s);
    case Timeout => TimeoutKept(c, s);
    case Serve =>
  }

  ghost predicate Inv(c: Config, s: System) { Conserved(c, s) && InOrder(c, s) && ServerOk(c, s) && ClientOk(c, s) }

  lemma StepKeepsInv(c: Config, s: System, a: Act, s': System)
    requires Valid(c) && Inv(c, s) && Step(c, s, a, s')
    ensures Inv(c, s')
  {
    ConservedKept(c, s, a);
    InOrderKept(c, s, a);
    ServerKept(c, s, a);
    ClientKept(c, s, a);
  }

  lemma {:induction false} RunInv(c: Config, ss: seq<System>, acts: seq<Act>, k: nat)
    requires Run(c, ss, acts) && k < |ss|
    ensures Inv(c, ss[k])
    decreases k
  {
    if k == 0 {
    } else {
      RunInv(c, ss, acts, k - 1);
      StepKeepsInv(c, ss[k - 1], acts[k - 1], ss[k]);
    }
  }

  // ----- every run -----

  /** No request and no reply is lost or made up, and the data checks on both sides never fail, however
      the calls interleave and however often the byte wraps. */
  lemma NothingLost(c: Config, ss: seq<System>, acts: seq<Act>, k: nat)
    requires Run(c, ss, acts) && k < |ss|
    ensures var s := ss[k];
            && s.client.calls == |s.requests| + s.served
            && (!c.doNotReply ==> s.served == |s.replies| + s.answered)
            && s.client.failures == 0 && s.server.failures == 0
  {
    RunInv(c, ss, acts, k);
  }

  /** Nothing is left to do: all calls are made, all links are empty and no call can time out. */
  ghost predicate Quiet(c: Config, s: System) {
    && s.client.allCalled && s.requests == [] && s.replies == []
    && !Enabled(c, s, Timeout)
  }

  /** The counters at the end, for every configuration. */
  lemma FinalCounters(c: Config, ss: seq<System>, acts: seq<Act>, k: nat)
    requires Run(c, ss, acts) && k < |ss| && Quiet(c, ss[k])
    ensures var s, calls := ss[k], AtLeastOne(c.client.numCalls);
            && s.client.calls == calls
            && s.server.counter == Min(calls, AtLeastOne(c.numCallsToReceive))
            && s.client.returned == (if c.doNotReply then 0 else Min(calls, AtLeastOne(ToReturn(c))))
            && s.client.timedOut == (if c.doNotReply && c.client.numCallsToTimeout > 0
                                     then Min(calls, AtLeastOne(ToReturn(c))) else 0)
  {
    RunInv(c, ss, acts, k);
  }

  /** What the tests check at the end. */
  predicate AsConfigured(c: Config, s: System) {
    && s.client.calls == c.client.numCalls
    && s.client.returned == c.client.numCallsToReturn
    && s.client.timedOut == c.client.numCallsToTimeout
    && s.server.counter == c.numCallsToReceive
  }

  /** The final counters are the configured ones exactly when at least one call is made, the server
      waits for at least one and at most that many, and the client waits for as many answers as a
      server that replies gives, or for as many timeouts as there are calls to one that does not. */
  lemma AsConfiguredExactly(c: Config, ss: seq<System>, acts: seq<Act>, k: nat)
    requires Run(c, ss, acts) && k < |ss| && Quiet(c, ss[k])
    ensures AsConfigured(c, ss[k])
            <==> && 1 <= c.client.numCalls && 1 <= c.numCallsToReceive <= c.client.numCalls
                 && (if c.doNotReply then c.client.numCallsToReturn == 0 && c.client.numCallsToTimeout <= c.client.numCalls
                     else c.client.numCallsToTimeout == 0 && 1 <= c.client.numCallsToReturn <= c.client.numCalls)
  {
    FinalCounters(c, ss, acts, k);
  }

  // ----- every run can come to an end -----

  lemma Extend(c: Config, ss: seq<System>, acts: seq<Act>, a: Act)
    requires Run(c, ss, acts) && Enabled(c, ss[|acts|], a)
    ensures Run(c, ss + [Apply(c, ss[|acts|], a)], acts + [a])
  {
    var ss', acts' := ss + [Apply(c, ss[|acts|], a)], acts + [a];
    forall k | 0 <= k < |acts'| ensures Step(c, ss'[k], acts'[k], ss'[k + 1]) {
      if k < |acts| {
        assert Step(c, ss[k], acts[k], ss[k + 1]);
      }
    }
  }

  /** How much is left to do. */
  function Left(c: Config, s: System): int {
    4 * (AtLeastOne(c.client.numCalls) - s.client.calls) + 2 * |s.requests| + |s.replies|
    + s.client.calls - s.expired
  }

  lemma LeftIsNatural(c: Config, s: System)
    requires Valid(c) && Inv(c, s)
    ensures Left(c, s) >= 0
  {}

  /** Unless everything is quiet, something can be done that leaves less to do. */
  lemma SomethingToDo(c: Config, s: System) returns (a: Act)
    requires Valid(c) && Inv(c, s) && !Quiet(c, s)
    ensures Enabled(c, s, a) && Left(c, Apply(c, s, a)) < Left(c, s)
  {
    if !s.client.allCalled {
      a := Call;
    } else if s.requests != [] {
      a := Serve;
    } else if s.replies != [] {
      a := Return;
    } else {
      a := Timeout;
    }
  }

  /** For every configuration, every run can be continued until everything is quiet. */
  lemma {:induction false} CanBecomeQuiet(c: Config, ss: seq<System>, acts: seq<Act>)
    returns (ss': seq<System>, acts': seq<Act>)
    requires Run(c, ss, acts)
    requires Left(c, ss[|acts|]) >= 0
    ensures Run(c, ss', acts') && ss <= ss' && acts <= acts' && Quiet(c, ss'[|acts'|])
    decreases Left(c, ss[|acts|])
  {
    RunInv(c, ss, acts, |acts|);
    var s := ss[|acts|];
    if Quiet(c, s) {
      ss', acts' := ss, acts;
    } else {
      var a := SomethingToDo(c, s);
      Extend(c, ss, acts, a);
      var ss1, acts1 := ss + [Apply(c, s, a)], acts + [a];
      RunInv(c, ss1, acts1, |acts1|);
      LeftIsNatural(c, ss1[|acts1|]);
      ss', acts' := CanBecomeQuiet(c, ss1, acts1);
    }
  }

  /** Every valid configuration has a run that ends. */
  lemma QuietReached(c: Config) returns (ss: seq<System>, acts: seq<Act>)
    requires Valid(c)
    ensures Run(c, ss, acts) && Quiet(c, ss[|acts|])
  {
    ss, acts := CanBecomeQuiet(c, [Start(c)], []);
  }

  /** So with zero configured calls, which still make one, the final check fails in a run. */
  lemma ZeroCallsFail(c: Config) returns (ss: seq<System>, acts: seq<Act>)
    requires Valid(c) && c.client.numCalls == 0
    ensures Run(c, ss, acts) && Quiet(c, ss[|acts|])
    ensures ss[|acts|].client.calls == 1 && !AsConfigured(c, ss[|acts|])
  {
    ss, acts := QuietReached(c);
    FinalCounters(c, ss, acts, |acts|);
  }
}
