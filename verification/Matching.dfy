/** How the publish/subscribe and RPC tests compare what arrives with what they expect: in order, or
    by finding the data in a list of expected data and erasing it there. */
module Matching {
  import opened Basics

  type byte = x: int | 0 <= x < 256

  datatype Expectation =
    | Increasing(size: nat)                     // message k consists of bytes with the value k
    | Unordered(expected: seq<seq<byte>>)

  /** `size` times the same byte. */
  function Bytes(size: nat, value: int): (r: seq<byte>) {
    seq(size, _ => value % 256)
  }

  // ----- find and erase -----

  /** The list without the first occurrence of `x`, if it has any. */
  function Erased<T(==)>(s: seq<T>, x: T): seq<T> {
    if s == [] then []
    else if s[0] == x then s[1..]
    else [s[0]] + Erased(s[1..], x)
  }

  lemma {:induction false} ErasedAt<T>(s: seq<T>, x: T, i: nat)
    requires i < |s| && s[i] == x && x !in s[..i]
    ensures Erased(s, x) == s[..i] + s[i + 1..]
  {
    if i == 0 {
    } else {
      assert s[0] in s[..i];
      assert s[1..][..i - 1] == s[..i][1..];
      ErasedAt(s[1..], x, i - 1);
      assert s[..i] + s[i + 1..] == [s[0]] + (s[1..][..i - 1] + s[1..][i..]);
    }
  }

  lemma {:induction false} ErasedAbsent<T>(s: seq<T>, x: T)
    requires x !in s
    ensures Erased(s, x) == s
  {
    if s == [] {
    } else {
      ErasedAbsent(s[1..], x);
    }
  }

  /** Erasing takes one occurrence away and leaves everything else, also the order. */
  lemma {:induction false} ErasedMultiset<T>(s: seq<T>, x: T)
    ensures multiset(Erased(s, x)) == multiset(s) - multiset{x}
  {
    if s == [] {
    } else {
      assert s == [s[0]] + s[1..];
      if s[0] != x {
        ErasedMultiset(s[1..], x);
      }
    }
  }

  method FindAndErase<T(==)>(s: seq<T>, x: T) returns (found: bool, rest: seq<T>)
    ensures found <==> x in s
    ensures rest == Erased(s, x)
  {
    var i := 0;
    while i < |s| && s[i] != x
      invariant 0 <= i <= |s| && x !in s[..i]
    {
      i := i + 1;
    }
    found := i < |s|;
    if found {
      ErasedAt(s, x, i);
      rest := s[..i] + s[i + 1..];
    } else {
      assert s[..i] == s;
      ErasedAbsent(s, x);
      rest := s;
    }
  }

  /** What is left of the expected list after some messages, and how many were not found in it. */
  function MatchAll<T(==)>(expected: seq<T>, ms: seq<T>): (r: (seq<T>, nat)) {
    if ms == [] then (expected, 0)
    else
      var front := MatchAll(expected, ms[..|ms| - 1]);
      var x := ms[|ms| - 1];
      (Erased(front.0, x), if x in front.0 then front.1 else front.1 + 1)
  }

  lemma DifferenceStep<T>(e: multiset<T>, f: multiset<T>, x: T)
    ensures e - (f + multiset{x}) == (e - f) - multiset{x}
    ensures (f + multiset{x}) - e == if x in e - f then f - e else (f - e) + multiset{x}
  {}

  /** The messages found are exactly a part of the expected multiset: what remains is the difference
      one way, and what was not found, counted, is the difference the other way. */
  lemma {:induction false} MatchesAsMultisets<T>(expected: seq<T>, ms: seq<T>)
    ensures multiset(MatchAll(expected, ms).0) == multiset(expected) - multiset(ms)
    ensures MatchAll(expected, ms).1 == |multiset(ms) - multiset(expected)|
    decreases |ms|
  {
    if ms == [] {
    } else {
      var front, x := ms[..|ms| - 1], ms[|ms| - 1];
      assert ms == front + [x];
      assert multiset(ms) == multiset(front) + multiset{x};
      MatchesAsMultisets(expected, front);
      var rest := MatchAll(expected, front).0;
      assert x in rest <==> x in multiset(rest);
      ErasedMultiset(rest, x);
      DifferenceStep(multiset(expected), multiset(front), x);
    }
  }

  /** Every message is accepted exactly when the messages are a sub-multiset of the expected list. */
  lemma AllAcceptedExactly<T>(expected: seq<T>, ms: seq<T>)
    ensures MatchAll(expected, ms).1 == 0 <==> multiset(ms) <= multiset(expected)
  {
    MatchesAsMultisets(expected, ms);
    var d := multiset(ms) - multiset(expected);
    assert |d| == 0 <==> d == multiset{};
    if d == multiset{} {
      forall x ensures multiset(ms)[x] <= multiset(expected)[x] {
        assert d[x] == 0;
      }
    }
  }

  /** The order of arrival does not matter. */
  lemma OrderIrrelevant<T>(expected: seq<T>, a: seq<T>, b: seq<T>)
    requires multiset(a) == multiset(b)
    ensures MatchAll(expected, a).1 == MatchAll(expected, b).1
    ensures multiset(MatchAll(expected, a).0) == multiset(MatchAll(expected, b).0)
  {
    MatchesAsMultisets(expected, a);
    MatchesAsMultisets(expected, b);
  }

  // ----- one side's bookkeeping -----

  datatype Verdict = Verdict(ok: bool, rest: Expectation)

  /** Compares data with what is expected when the counter has the given value. */
  function Compare(e: Expectation, value: int, data: seq<byte>): Verdict {
    match e
    case Increasing(size) => Verdict(data == Bytes(size, value), e)
    case Unordered(expected) => Verdict(data in expected, Unordered(Erased(expected, data)))
  }

  /** A counter that stops at a limit, with the expectation it consumes and the failed comparisons. */
  datatype Reception = Reception(limit: int, counter: int, all: bool, e: Expectation, failures: nat)

  function Received(r: Reception, data: seq<byte>): Reception {
    if r.all then r
    else
      var v := Compare(r.e, r.counter, data);
      var c := (r.counter + 1) % W;
      r.(counter := c, all := c >= r.limit, e := v.rest, failures := if v.ok then r.failures else r.failures + 1)
  }

  function ReceivedAll(r: Reception, ms: seq<seq<byte>>): Reception {
    if ms == [] then r else Received(ReceivedAll(r, ms[..|ms| - 1]), ms[|ms| - 1])
  }

  function Fresh(limit: int, e: Expectation): Reception { Reception(limit, 0, false, e, 0) }

  predicate ValidLimit(limit: int) { 0 <= limit < W }

  function AtLeastOne(n: int): int { if n < 1 then 1 else n }

  function Min(a: int, b: int): int { if a <= b then a else b }

  /** The counter ends at the number of messages, or at the limit, which counts as one when zero. */
  lemma {:induction false} CounterEnds(limit: int, e: Expectation, ms: seq<seq<byte>>)
    requires ValidLimit(limit)
    ensures var r := ReceivedAll(Fresh(limit, e), ms);
            && r.limit == limit
            && r.counter == Min(|ms|, AtLeastOne(limit))
            && (r.all <==> |ms| >= AtLeastOne(limit))
    decreases |ms|
  {
    if ms == [] {
    } else {
      CounterEnds(limit, e, ms[..|ms| - 1]);
    }
  }

  /** With a list of expected data exactly the messages before the limit are compared. */
  lemma {:induction false} UnorderedCompares(limit: int, expected: seq<seq<byte>>, ms: seq<seq<byte>>)
    requires ValidLimit(limit)
    ensures var r := ReceivedAll(Fresh(limit, Unordered(expected)), ms);
            var seen := ms[..Min(|ms|, AtLeastOne(limit))];
            r.e == Unordered(MatchAll(expected, seen).0) && r.failures == MatchAll(expected, seen).1
    decreases |ms|
  {
    var n := Min(|ms|, AtLeastOne(limit));
    if ms == [] {
    } else {
      var front := ms[..|ms| - 1];
      UnorderedCompares(limit, expected, front);
      CounterEnds(limit, Unordered(expected), front);
      if |ms| <= AtLeastOne(limit) {
        assert ms[..n] == ms && front[..Min(|front|, AtLeastOne(limit))] == front;
      } else {
        assert ms[..n] == front[..n];
      }
    }
  }

  /** No comparison with a list fails exactly when the messages before the limit are a sub-multiset of
      the list. */
  lemma UnorderedAcceptsExactly(limit: int, expected: seq<seq<byte>>, ms: seq<seq<byte>>)
    requires ValidLimit(limit)
    ensures ReceivedAll(Fresh(limit, Unordered(expected)), ms).failures == 0
            <==> multiset(ms[..Min(|ms|, AtLeastOne(limit))]) <= multiset(expected)
  {
    UnorderedCompares(limit, expected, ms);
    AllAcceptedExactly(expected, ms[..Min(|ms|, AtLeastOne(limit))]);
  }

  /** No comparison in order fails exactly when message k, before the limit, is k modulo 256. */
  lemma {:induction false} IncreasingAcceptsExactly(limit: int, size: nat, ms: seq<seq<byte>>)
    requires ValidLimit(limit)
    ensures var r := ReceivedAll(Fresh(limit, Increasing(size)), ms);
            && r.e == Increasing(size)
            && (r.failures == 0
                <==> forall k | 0 <= k < |ms| && k < AtLeastOne(limit) :: ms[k] == Bytes(size, k))
    decreases |ms|
  {
    if ms == [] {
    } else {
      var front, n := ms[..|ms| - 1], |ms| - 1;
      IncreasingAcceptsExactly(limit, size, front);
      CounterEnds(limit, Increasing(size), front);
      assert forall k | 0 <= k < n :: ms[k] == front[k];
    }
  }

  // ----- the test's own records -----

  /** The first n messages of a publisher. */
  function Messages(size: nat, n: nat): (r: seq<seq<byte>>)
    ensures |r| == n
    ensures forall k | 0 <= k < n :: r[k] == Bytes(size, k)
  {
    if n == 0 then [] else Messages(size, n - 1) + [Bytes(size, n - 1)]
  }

  /** What a publisher with `num` messages has put on its link after n calls. */
  function Published(size: nat, num: int, n: nat): seq<seq<byte>>
    requires ValidLimit(num)
  {
    Messages(size, Min(n, AtLeastOne(num)))
  }

  class DataPublisherInfo {
    const messageSizeInBytes: nat
    const numMsgToPublish: int
    var publishMsgCounter: int
    var allSent: bool
    var link: seq<seq<byte>>  // everything handed to the data publisher

    ghost predicate Valid()
      reads this
    {
      && ValidLimit(numMsgToPublish) && 0 <= publishMsgCounter <= AtLeastOne(numMsgToPublish)
      && (allSent <==> publishMsgCounter == AtLeastOne(numMsgToPublish))
    }

    /** Publish has been called n times. */
    ghost predicate After(n: nat)
      reads this
    {
      && Valid() && publishMsgCounter == Min(n, AtLeastOne(numMsgToPublish))
      && link == Published(messageSizeInBytes, numMsgToPublish, n)
    }

    constructor (messageSizeInBytes: nat, numMsgToPublish: int)
      requires ValidLimit(numMsgToPublish)
      ensures After(0)
      ensures this.messageSizeInBytes == messageSizeInBytes && this.numMsgToPublish == numMsgToPublish
    {
      this.messageSizeInBytes, this.numMsgToPublish := messageSizeInBytes, numMsgToPublish;
      publishMsgCounter, allSent, link := 0, false, [];
    }

    method Publish()
      requires Valid()
      modifies this
      ensures Valid()
      ensures publishMsgCounter == Min(old(publishMsgCounter) + 1, AtLeastOne(numMsgToPublish))
      ensures link == if old(allSent) then old(link) else old(link) + [Bytes(messageSizeInBytes, old(publishMsgCounter))]
    {
      if !allSent {
        link := link + [Bytes(messageSizeInBytes, publishMsgCounter)];
        publishMsgCounter := (publishMsgCounter + 1) % W;
        if publishMsgCounter >= numMsgToPublish {
          allSent := true;
        }
      }
    }
  }

  class DataSubscriberInfo {
    const numMsgToReceive: int
    var expectation: Expectation
    var receiveMsgCounter: int
    var allReceived: bool
    var failures: nat

    ghost function Value(): Reception
      reads this
    {
      Reception(numMsgToReceive, receiveMsgCounter, allReceived, expectation, failures)
    }

    constructor (numMsgToReceive: int, expectation: Expectation)
      ensures Value() == Fresh(numMsgToReceive, expectation)
    {
      this.numMsgToReceive, this.expectation := numMsgToReceive, expectation;
      receiveMsgCounter, allReceived, failures := 0, false, 0;
    }

    method OnDataReception(data: seq<byte>)
      modifies this
      ensures Value() == Received(old(Value()), data)
    {
      if !allReceived {
        match expectation {
          case Increasing(size) =>
            if data != Bytes(size, receiveMsgCounter) {
              failures := failures + 1;
            }
          case Unordered(expected) =>
            var found, rest := FindAndErase(expected, data);
            if !found {
              failures := failures + 1;
            }
            expectation := Unordered(rest);
        }
        receiveMsgCounter := (receiveMsgCounter + 1) % W;
        if receiveMsgCounter >= numMsgToReceive {
          allReceived := true;
        }
      }
    }
  }

  /** A publisher's handler called once in each of n simulation steps. */
  method PublishSteps(d: DataPublisherInfo, n: nat)
    requires d.After(0)
    modifies d
    ensures d.After(n)
  {
    for i := 0 to n
      invariant d.After(i)
    {
      d.Publish();
    }
  }

  // ----- several publishers -----

  /** The smallest number of messages any of the publishers has to send. */
  function Fewest(nums: seq<int>): (n: nat)
    requires nums != []
    ensures exists i :: 0 <= i < |nums| && n == AtLeastOne(nums[i])
    ensures forall i | 0 <= i < |nums| :: n <= AtLeastOne(nums[i])
  {
    var last := AtLeastOne(nums[|nums| - 1]);
    if |nums| == 1 then last
    else
      var n := Fewest(nums[..|nums| - 1]);
      Min(n, last)
  }

  function Nums(ps: seq<DataPublisherInfo>): (r: seq<int>)
    ensures |r| == |ps| && forall i | 0 <= i < |ps| :: r[i] == ps[i].numMsgToPublish
  {
    seq(|ps|, i requires 0 <= i < |ps| => ps[i].numMsgToPublish)
  }

  ghost predicate AllAfter(ps: seq<DataPublisherInfo>, n: nat)
    reads set p | p in ps
  {
    forall i | 0 <= i < |ps| :: ps[i].After(n)
  }

  ghost predicate Distinct(ps: seq<DataPublisherInfo>) {
    forall i, j | 0 <= i < j < |ps| :: ps[i] != ps[j]
  }

  /** Every publisher publishes once. */
  method PublishTask(ps: seq<DataPublisherInfo>, ghost n: nat)
    requires Distinct(ps) && AllAfter(ps, n)
    modifies set p | p in ps
    ensures AllAfter(ps, n + 1)
  {
    for k := 0 to |ps|
      invariant forall i | 0 <= i < |ps| :: ps[i].After(if i < k then n + 1 else n)
    {
      ps[k].Publish();
    }
  }

  lemma NobodyDone(ps: seq<DataPublisherInfo>, n: nat)
    requires ps != [] && AllAfter(ps, n) && forall i | 0 <= i < |ps| :: !ps[i].allSent
    ensures n < Fewest(Nums(ps))
  {
    var i :| 0 <= i < |ps| && Fewest(Nums(ps)) == AtLeastOne(Nums(ps)[i]);
    assert ps[i].After(n) && !ps[i].allSent;
  }

  lemma SomebodyDone(ps: seq<DataPublisherInfo>, n: nat, i: nat)
    requires i < |ps| && AllAfter(ps, n) && n <= Fewest(Nums(ps)) && ps[i].allSent
    ensures n == Fewest(Nums(ps))
  {
    assert ps[i].After(n);
    assert Fewest(Nums(ps)) <= AtLeastOne(Nums(ps)[i]);
  }

  lemma AllLinks(ps: seq<DataPublisherInfo>)
    requires ps != [] && AllAfter(ps, Fewest(Nums(ps)))
    ensures forall i | 0 <= i < |ps| :: ps[i].link == Messages(ps[i].messageSizeInBytes, Fewest(Nums(ps)))
  {
    forall i | 0 <= i < |ps| ensures ps[i].link == Messages(ps[i].messageSizeInBytes, Fewest(Nums(ps))) {
      assert ps[i].After(Fewest(Nums(ps)));
      assert Fewest(Nums(ps)) <= AtLeastOne(Nums(ps)[i]);
    }
  }

  /** The loop of a participant that publishes without time synchronization: it ends as soon as one
      of its publishers has sent everything, and each of them has then put as many messages on its
      link as that one. */
  method PublishUntilOneIsDone(ps: seq<DataPublisherInfo>)
    requires ps != [] && Distinct(ps) && AllAfter(ps, 0)
    modifies set p | p in ps
    ensures AllAfter(ps, Fewest(Nums(ps)))
    ensures forall i | 0 <= i < |ps| :: ps[i].link == Messages(ps[i].messageSizeInBytes, Fewest(Nums(ps)))
  {
    ghost var n: nat := 0;
    while forall i | 0 <= i < |ps| :: !ps[i].allSent
      invariant n <= Fewest(Nums(ps)) && AllAfter(ps, n)
      decreases Fewest(Nums(ps)) - n
    {
      NobodyDone(ps, n);
      PublishTask(ps, n);
      n := n + 1;
    }
    ghost var i :| 0 <= i < |ps| && ps[i].allSent;
    SomebodyDone(ps, n, i);
    AllLinks(ps);
  }

  /** So everything is sent exactly when all publishers have the same number of messages to send. */
  lemma AllSentExactly(nums: seq<int>)
    requires nums != []
    ensures (forall i | 0 <= i < |nums| :: Fewest(nums) == AtLeastOne(nums[i]))
            <==> forall i, j | 0 <= i < |nums| && 0 <= j < |nums| :: AtLeastOne(nums[i]) == AtLeastOne(nums[j])
  {}

  /** Publishers with one and with two messages: the second one's last message is never sent. */
  method SecondIsCutOff(size: nat) returns (one: DataPublisherInfo, two: DataPublisherInfo)
    ensures one.numMsgToPublish == 1 && two.numMsgToPublish == 2
    ensures one.allSent && !two.allSent && two.link == [Bytes(size, 0)]
  {
    one := new DataPublisherInfo(size, 1);
    two := new DataPublisherInfo(size, 2);
    var ps := [one, two];
    PublishUntilOneIsDone(ps);
    assert Fewest(Nums(ps)) == 1;
    assert ps[0].After(1) && ps[1].After(1);
    assert Messages(size, 1) == [Bytes(size, 0)];
  }

  /** Whatever part of a publisher's messages has arrived over a link that keeps the order, the check
      for increasing data never fails, also after the byte has wrapped. */
  lemma PublishedIsAccepted(d: DataPublisherInfo, n: nat, limit: int, arrived: nat)
    requires d.After(n) && ValidLimit(limit) && arrived <= |d.link|
    ensures ReceivedAll(Fresh(limit, Increasing(d.messageSizeInBytes)), d.link[..arrived]).failures == 0
  {
    IncreasingAcceptsExactly(limit, d.messageSizeInBytes, d.link[..arrived]);
  }
}
