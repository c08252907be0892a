/** How a participant finds out that it has heard all others: it collects the ids it receives, each a
    single byte, until there are one fewer of them than participants. */
module ReceivedIds {

  /** The id of the participant with the given number, truncated to a byte. */
  function IdOf(index: nat): nat { if index < 256 then index else index % 256 }

  /** `fired` counts how often the promise has been fulfilled since the last reset. */
  datatype Hearing = Hearing(id: nat, expected: nat, received: set<nat>, all: bool, fired: nat)

  function Fresh(id: nat, expected: nat): Hearing { Hearing(id, expected, {}, false, 0) }

  function Heard(h: Hearing, from: nat): Hearing {
    if h.all || from == h.id then h
    else
      var received := h.received + {from};
      if |received| == h.expected - 1 then h.(received := received, all := true, fired := h.fired + 1)
      else h.(received := received)
  }

  class TestParticipant {
    const id: nat
    const expectedReceptions: nat
    var receivedIds: set<nat>
    var allReceived: bool
    var fulfilled: nat

    ghost function Value(): Hearing
      reads this
    {
      Hearing(id, expectedReceptions, receivedIds, allReceived, fulfilled)
    }

    constructor (globalParticipantIndex: nat, expectedReceptions: nat)
      ensures Value() == Fresh(IdOf(globalParticipantIndex), expectedReceptions)
    {
      id, this.expectedReceptions := IdOf(globalParticipantIndex), expectedReceptions;
      receivedIds, allReceived, fulfilled := {}, false, 0;
    }

    method ResetReception()
      modifies this
      ensures Value() == Fresh(id, expectedReceptions)
    {
      receivedIds, allReceived, fulfilled := {}, false, 0;
    }

    method OnMessage(participantId: nat)
      modifies this
      ensures Value() == Heard(old(Value()), participantId)
    {
      if !allReceived {
        if participantId != id {
          receivedIds := receivedIds + {participantId};
          if |receivedIds| == expectedReceptions - 1 {
            allReceived := true;
            fulfilled := fulfilled + 1;
          }
        }
      }
    }
  }

  datatype Op = From(index: nat) | Reset

  function Apply(h: Hearing, op: Op): Hearing {
    match op
    case From(index) => Heard(h, IdOf(index))
    case Reset => Fresh(h.id, h.expected)
  }

  function After(n: nat, me: nat, ops: seq<Op>): Hearing {
    if ops == [] then Fresh(IdOf(me), n) else Apply(After(n, me, ops[..|ops| - 1]), ops[|ops| - 1])
  }

  /** Messages come from the participants there are. */
  ghost predicate Among(n: nat, ops: seq<Op>) {
    forall k | 0 <= k < |ops| && ops[k].From? :: ops[k].index < n
  }

  ghost predicate NoReset(ops: seq<Op>) {
    forall k | 0 <= k < |ops| :: ops[k].From?
  }

  /** The ids of all participants but one. */
  function OtherIds(n: nat, me: nat): set<nat> {
    set j | 0 <= j < n && IdOf(j) != IdOf(me) :: IdOf(j)
  }

  function Below(m: nat): (r: set<nat>)
    ensures |r| == m && forall x: nat :: x in r <==> x < m
  {
    if m == 0 then {} else Below(m - 1) + {m - 1}
  }

  function Distinct(n: nat): nat { if n <= 256 then n else 256 }

  lemma OtherIdsAre(n: nat, me: nat, x: nat)
    requires me < n
    ensures x in OtherIds(n, me) <==> x < Distinct(n) && x != IdOf(me)
  {
    if x < Distinct(n) && x != IdOf(me) {
      assert IdOf(x) == x;
    }
  }

  lemma AllButOne(s: set<nat>, m: nat, own: nat)
    requires own < m && forall x: nat :: x in s <==> x < m && x != own
    ensures |s| == m - 1
  {
    assert s + {own} == Below(m);
  }

  /** There are n - 1 ids of others as long as the byte tells n participants apart, and never more than
      255. */
  lemma OtherIdsCount(n: nat, me: nat)
    requires me < n
    ensures |OtherIds(n, me)| == Distinct(n) - 1
  {
    var others := OtherIds(n, me);
    forall x: nat ensures x in others <==> x < Distinct(n) && x != IdOf(me) {
      OtherIdsAre(n, me, x);
    }
    AllButOne(others, Distinct(n), IdOf(me));
  }

  lemma SubsetSize(a: set<nat>, b: set<nat>)
    requires a <= b
    ensures |a| <= |b| && (|a| == |b| ==> a == b)
    decreases |b|
  {
    if x :| x in a {
      SubsetSize(a - {x}, b - {x});
      if |a| == |b| {
        assert a == (a - {x}) + {x} && b == (b - {x}) + {x};
      }
    } else if y :| y in b {
      assert a == {};
    }
  }

  ghost predicate Inv(n: nat, me: nat, h: Hearing) {
    && h.id == IdOf(me) && h.expected == n
    && h.received <= OtherIds(n, me)
    && (h.all ==> |h.received| == n - 1)
    && (!h.all && h.received != {} ==> |h.received| != n - 1)
    && h.fired == (if h.all then 1 else 0)
  }

  lemma StepKeepsInv(n: nat, me: nat, h: Hearing, op: Op)
    requires Inv(n, me, h) && (op.From? ==> op.index < n)
    ensures Inv(n, me, Apply(h, op))
  {
    if op.From? && IdOf(op.index) != IdOf(me) {
      assert IdOf(op.index) in OtherIds(n, me);
    }
  }

  lemma {:induction false} AlwaysInv(n: nat, me: nat, ops: seq<Op>)
    requires Among(n, ops)
    ensures Inv(n, me, After(n, me, ops))
    decreases |ops|
  {
    if ops == [] {
    } else {
      AlwaysInv(n, me, ops[..|ops| - 1]);
      StepKeepsInv(n, me, After(n, me, ops[..|ops| - 1]), ops[|ops| - 1]);
    }
  }

  /** When the promise is fulfilled exactly the ids of all others have been received, whatever the
      order and however often messages are repeated; and it is fulfilled once per reset. */
  lemma FiresWhenAllHeard(n: nat, me: nat, ops: seq<Op>)
    requires Among(n, ops) && me < n
    ensures After(n, me, ops).all ==> After(n, me, ops).received == OtherIds(n, me) && n <= 256
    ensures After(n, me, ops).fired == if After(n, me, ops).all then 1 else 0
  {
    AlwaysInv(n, me, ops);
    var h := After(n, me, ops);
    OtherIdsCount(n, me);
    SubsetSize(h.received, OtherIds(n, me));
  }

  ghost predicate HasSpoken(ops: seq<Op>, j: nat) { From(j) in ops }

  ghost predicate AllSpoke(n: nat, me: nat, ops: seq<Op>) {
    forall j: nat | j < n && j != me :: HasSpoken(ops, j)
  }

  /** Without a reset in between it has fired exactly when a message of every other participant has
      arrived, provided there are between 2 and 256 participants. */
  lemma FiresExactly(n: nat, me: nat, ops: seq<Op>)
    requires Among(n, ops) && me < n && 2 <= n <= 256 && NoReset(ops)
    ensures After(n, me, ops).all <==> AllSpoke(n, me, ops)
  {
    AlwaysInv(n, me, ops);
    FiresWhenAllHeard(n, me, ops);
    HeardSoFar(n, me, ops);
    var h := After(n, me, ops);
    if h.all {
      forall j: nat | j < n && j != me ensures HasSpoken(ops, j) {
        assert IdOf(j) == j && j in OtherIds(n, me);
      }
    } else if AllSpoke(n, me, ops) {
      AllHeard(n, me, ops, h);
    }
  }

  lemma AllHeard(n: nat, me: nat, ops: seq<Op>, h: Hearing)
    requires me < n && 2 <= n <= 256 && Inv(n, me, h) && AllSpoke(n, me, ops)
    requires !h.all ==> Remembers(n, me, ops, h)
    ensures h.all
  {
    OtherIdsCount(n, me);
    if !h.all {
      forall x | x in OtherIds(n, me) ensures x in h.received {
        assert HasSpoken(ops, x);
      }
      SubsetSize(OtherIds(n, me), h.received);
      SubsetSize(h.received, OtherIds(n, me));
    }
  }

  ghost predicate Remembers(n: nat, me: nat, ops: seq<Op>, h: Hearing) {
    forall j: nat | j < n && j != me && HasSpoken(ops, j) :: j in h.received
  }

  lemma HeardOneMore(ops: seq<Op>, op: Op, j: nat)
    ensures HasSpoken(ops + [op], j) <==> HasSpoken(ops, j) || op == From(j)
  {}

  lemma HeardStep(n: nat, me: nat, front: seq<Op>, i: nat, h: Hearing)
    requires me < n <= 256 && i < n && h.id == me
    requires forall x | x in h.received :: HasSpoken(front, x)
    requires !h.all ==> Remembers(n, me, front, h)
    ensures forall x | x in Heard(h, i).received :: HasSpoken(front + [From(i)], x)
    ensures !Heard(h, i).all ==> Remembers(n, me, front + [From(i)], Heard(h, i))
  {
    var h' := Heard(h, i);
    forall x | x in h'.received ensures HasSpoken(front + [From(i)], x) {
      HeardOneMore(front, From(i), x);
    }
    if !h'.all {
      forall j: nat | j < n && j != me && HasSpoken(front + [From(i)], j) ensures j in h'.received {
        HeardOneMore(front, From(i), j);
      }
    }
  }

  lemma {:induction false} HeardSoFar(n: nat, me: nat, ops: seq<Op>)
    requires Among(n, ops) && me < n <= 256 && NoReset(ops)
    ensures After(n, me, ops).id == me
    ensures forall x | x in After(n, me, ops).received :: HasSpoken(ops, x)
    ensures !After(n, me, ops).all ==> Remembers(n, me, ops, After(n, me, ops))
    decreases |ops|
  {
    if ops == [] {
    } else {
      var front, op := ops[..|ops| - 1], ops[|ops| - 1];
      HeardSoFar(n, me, front);
      HeardStep(n, me, front, op.index, After(n, me, front));
      assert ops == front + [From(op.index)] && IdOf(op.index) == op.index;
    }
  }

  function FromAll(n: nat): (r: seq<Op>)
    ensures |r| == n && forall j | 0 <= j < n :: r[j] == From(j)
  {
    seq(n, j requires 0 <= j => From(j))
  }

  /** Hearing everybody is possible exactly with 2 to 256 participants: beyond that two share an id. */
  lemma CanFireExactly(n: nat, me: nat)
    requires me < n
    ensures (exists ops :: Among(n, ops) && After(n, me, ops).all) <==> 2 <= n <= 256
  {
    if 2 <= n <= 256 {
      var ops := FromAll(n);
      forall j: nat | j < n && j != me ensures HasSpoken(ops, j) {
        assert ops[j] == From(j);
      }
      FiresExactly(n, me, ops);
      assert Among(n, ops) && After(n, me, ops).all;
    } else if exists ops :: Among(n, ops) && After(n, me, ops).all {
      var ops :| Among(n, ops) && After(n, me, ops).all;
      FiresWhenAllHeard(n, me, ops);
      if n == 1 {
        NobodyElse(n, me, ops);
      }
    }
  }

  lemma {:induction false} NobodyElse(n: nat, me: nat, ops: seq<Op>)
    requires Among(n, ops) && me < n && n == 1
    ensures After(n, me, ops) == Fresh(0, 1)
    decreases |ops|
  {
    if ops == [] {
    } else {
      NobodyElse(n, me, ops[..|ops| - 1]);
    }
  }
}
