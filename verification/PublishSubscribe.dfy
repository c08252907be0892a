/** Publishers with any step sizes and one subscriber, coordinated in virtual time: the
    participants, their handlers and the checks they make on every message. */
module PublishSubscribe {
  import opened Basics
  import opened TimePoints

  // ----- the subscriber -----

  datatype Subscription = Subscription(counts: seq<nat>, currentTime: int, stops: nat)

  datatype Verdict = Accepted | TooEarly | TooLate | WrongPeriod

  /** Division of a signed duration by a positive count truncates toward zero. */
  function Quotient(a: int, b: int): int
    requires b > 0
  {
    if a >= 0 then a / b else -((-a) / b)
  }

  function Judge(sub: Subscription, period: int, publisherPeriod: int, sent: int, index: nat): Verdict {
    if sent < sub.currentTime - period then TooEarly
    else if sent > sub.currentTime + period then TooLate
    else if index > 0 && Quotient(sent, index) != publisherPeriod then WrongPeriod
    else Accepted
  }

  function Sum(counts: seq<nat>): nat {
    if counts == [] then 0 else Sum(counts[..|counts| - 1]) + counts[|counts| - 1]
  }

  /** The sum of all counts and the expected total are compared in unsigned 32-bit arithmetic. */
  predicate StopCondition(counts: seq<nat>, num: nat) {
    Sum(counts) % W == (num * |counts|) % W
  }

  function Counted(sub: Subscription, publisher: nat, num: nat): Subscription
    requires publisher < |sub.counts|
  {
    var counts := sub.counts[publisher := (sub.counts[publisher] + 1) % W];
    sub.(counts := counts, stops := if StopCondition(counts, num) then sub.stops + 1 else sub.stops)
  }

  class Subscriber {
    var messageIndexes: seq<nat>
    var currentTime: int
    var stopCalls: nat
    const numMessages: nat
    const subscriberPeriod: int
    const publisherPeriods: seq<int>

    ghost function Value(): Subscription
      reads this
    {
      Subscription(messageIndexes, currentTime, stopCalls)
    }

    constructor (period: int, periods: seq<int>, num: nat)
      ensures Value() == Subscription(seq(|periods|, _ => 0), 0, 0)
      ensures subscriberPeriod == period && publisherPeriods == periods && numMessages == num
    {
      messageIndexes := seq(|periods|, _ => 0);
      currentTime, stopCalls := 0, 0;
      subscriberPeriod, publisherPeriods, numMessages := period, periods, num;
    }

    method SimulationStep(now: int) returns (ok: bool)
      requires subscriberPeriod > 0
      modifies this`currentTime
      ensures Value() == old(Value()).(currentTime := now)
      ensures ok <==> now % subscriberPeriod == 0
    {
      currentTime := now;
      ok := currentTime % subscriberPeriod == 0;
    }

    method SumOfIndexes() returns (sum: nat)
      ensures sum == Sum(messageIndexes) % W
    {
      sum := 0;
      for k := 0 to |messageIndexes|
        invariant sum == Sum(messageIndexes[..k]) % W
      {
        assert messageIndexes[..k + 1][..k] == messageIndexes[..k];
        sum := (sum + messageIndexes[k]) % W;
      }
      assert messageIndexes[..|messageIndexes|] == messageIndexes;
    }

    /** A failed assertion leaves the method before the message is counted. */
    method ReceiveMessage(publisher: nat, sent: int, index: nat) returns (verdict: Verdict)
      requires publisher < |messageIndexes| == |publisherPeriods|
      modifies this`messageIndexes, this`stopCalls
      ensures verdict == Judge(old(Value()), subscriberPeriod, publisherPeriods[publisher], sent, index)
      ensures Value() == if verdict.Accepted? then Counted(old(Value()), publisher, numMessages) else old(Value())
    {
      if !(sent >= currentTime - subscriberPeriod) {
        return TooEarly;
      }
      if !(sent <= currentTime + subscriberPeriod) {
        return TooLate;
      }
      if index > 0 && Quotient(sent, index) != publisherPeriods[publisher] {
        return WrongPeriod;
      }
      messageIndexes := messageIndexes[publisher := (messageIndexes[publisher] + 1) % W];
      var sumOfIndexes := SumOfIndexes();
      if sumOfIndexes == (numMessages * |messageIndexes|) % W {
        stopCalls := stopCalls + 1;
      }
      return Accepted;
    }
  }

  // ----- the publisher -----

  datatype Sending = Nothing | Publishes(sent: int, index: nat) | OffPeriod

  function Handle(index: nat, num: nat, period: int, now: int): Sending
    requires period > 0
  {
    if now % period != 0 then OffPeriod
    else if index < num then Publishes(now, index)
    else Nothing
  }

  class Publisher {
    var messageIndex: nat
    const numMessages: nat
    const period: int

    constructor (p: int, num: nat)
      requires p > 0
      ensures messageIndex == 0 && numMessages == num && period == p
    {
      messageIndex, numMessages, period := 0, num, p;
    }

    method SimulationStep(now: int) returns (r: Sending)
      requires period > 0 && numMessages < W
      modifies this`messageIndex
      ensures r == Handle(old(messageIndex), numMessages, period, now)
      ensures messageIndex == if r.Publishes? then old(messageIndex) + 1 else old(messageIndex)
    {
      if now % period != 0 {
        return OffPeriod;
      }
      r := Nothing;
      if messageIndex < numMessages {
        r := Publishes(now, messageIndex);
        messageIndex := messageIndex + 1;
      }
    }
  }

  // ----- the stop condition -----

  ghost predicate AllReceived(counts: seq<nat>, num: nat) {
    forall j | 0 <= j < |counts| :: counts[j] == num
  }

  ghost predicate Within(counts: seq<nat>, num: nat) {
    forall j | 0 <= j < |counts| :: counts[j] <= num
  }

  lemma {:induction false} SumIsFull(counts: seq<nat>, num: nat)
    requires Within(counts, num)
    ensures Sum(counts) <= Nth(|counts|, num)
    ensures Sum(counts) == Nth(|counts|, num) <==> AllReceived(counts, num)
    decreases |counts|
  {
    if counts == [] {
    } else {
      var front := counts[..|counts| - 1];
      SumIsFull(front, num);
      if AllReceived(counts, num) {
        assert AllReceived(front, num);
      }
      if AllReceived(front, num) && counts[|counts| - 1] == num {
        forall j | 0 <= j < |counts| ensures counts[j] == num {
          assert j < |front| ==> front[j] == num;
        }
      }
    }
  }

  lemma {:induction false} SumPositive(counts: seq<nat>, j: nat)
    requires j < |counts| && counts[j] > 0
    ensures Sum(counts) > 0
    decreases |counts|
  {
    if j == |counts| - 1 {
    } else {
      SumPositive(counts[..|counts| - 1], j);
    }
  }

  /** While the expected total fits 32 bits, the condition is checked after some message was counted
      and no publisher exceeds its number, it holds exactly when everything has been received. */
  lemma StopsWhenComplete(counts: seq<nat>, num: nat, j: nat)
    requires Within(counts, num) && j < |counts| && counts[j] > 0
    requires num * |counts| <= W
    ensures StopCondition(counts, num) <==> AllReceived(counts, num)
  {
    SumIsFull(counts, num);
    SumPositive(counts, j);
    NthIsProduct(|counts|, num);
  }

  /** Counts with any given total can be spread so that no publisher exceeds its number. */
  lemma {:induction false} Spread(n: nat, num: nat, total: nat) returns (counts: seq<nat>)
    requires total <= Nth(n, num)
    ensures |counts| == n && Within(counts, num) && Sum(counts) == total
    decreases n
  {
    if n == 0 {
      counts := [];
    } else {
      var last := if total < num then total else num;
      NthNonNegative(n - 1, num);
      var front := Spread(n - 1, num, total - last);
      counts := front + [last];
      assert counts[..n - 1] == front;
    }
  }

  /** Beyond 32 bits the condition also holds for counts that are not complete. */
  lemma StopsTooEarly(n: nat, num: nat) returns (counts: seq<nat>)
    requires num * n > W
    ensures |counts| == n && Within(counts, num) && Sum(counts) > 0
    ensures StopCondition(counts, num) && !AllReceived(counts, num)
  {
    NthIsProduct(n, num);
    counts := Spread(n, num, num * n - W);
    SumIsFull(counts, num);
    assert (num * n - W) % W == (num * n) % W;
  }

  /** The condition means completeness for everything that can be counted. */
  ghost predicate MeansComplete(n: nat, num: nat) {
    forall counts: seq<nat> | |counts| == n && Within(counts, num) && Sum(counts) > 0 ::
      StopCondition(counts, num) <==> AllReceived(counts, num)
  }

  /** It does exactly when the expected total fits 32 bits. */
  lemma StopConditionExactly(n: nat, num: nat)
    ensures MeansComplete(n, num) <==> num * n <= W
  {
    if num * n <= W {
      forall counts: seq<nat> | |counts| == n && Within(counts, num) && Sum(counts) > 0
        ensures StopCondition(counts, num) <==> AllReceived(counts, num)
      {
        var j := PositiveCount(counts);
        StopsWhenComplete(counts, num, j);
      }
    } else {
      var counts := StopsTooEarly(n, num);
      assert |counts| == n && Within(counts, num) && Sum(counts) > 0;
    }
  }

  lemma {:induction false} PositiveCount(counts: seq<nat>) returns (j: nat)
    requires Sum(counts) > 0
    ensures j < |counts| && counts[j] > 0
    decreases |counts|
  {
    j := |counts| - 1;
    if counts[j] == 0 {
      j := PositiveCount(counts[..j]);
    }
  }
}
