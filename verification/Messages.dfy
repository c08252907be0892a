/** The data packets of a link, apart from the announcements they share it with. */
module Messages {
  import opened TimeSync

  datatype Message = Message(sent: int, payload: int)

  function DataOf(log: seq<Packet>): (r: seq<Message>) {
    if log == [] then []
    else
      var front := DataOf(log[..|log| - 1]);
      match log[|log| - 1]
      case Announce(_) => front
      case Data(sent, payload) => front + [Message(sent, payload)]
  }

  lemma DataAppend(log: seq<Packet>, p: Packet)
    ensures DataOf(log + [p]) == if p.Data? then DataOf(log) + [Message(p.sent, p.payload)] else DataOf(log)
  {
    assert (log + [p])[..|log|] == log;
  }

  lemma {:induction false} DataPrefix(log: seq<Packet>, k: nat)
    requires k <= |log|
    ensures DataOf(log[..k]) <= DataOf(log)
    decreases |log|
  {
    if k == |log| {
      assert log[..k] == log;
    } else {
      assert log[..|log| - 1][..k] == log[..k];
      DataPrefix(log[..|log| - 1], k);
    }
  }

  /** Links keep the order: the data packet that arrives next is the one after those that arrived. */
  lemma NextInOrder(log: seq<Packet>, n: nat)
    requires n < |log|
    ensures log[n].Data? ==>
              && |DataOf(log[..n])| < |DataOf(log)|
              && DataOf(log)[|DataOf(log[..n])|] == Message(log[n].sent, log[n].payload)
              && DataOf(log[..n + 1]) == DataOf(log[..n]) + [Message(log[n].sent, log[n].payload)]
    ensures log[n].Announce? ==> DataOf(log[..n + 1]) == DataOf(log[..n])
  {
    assert log[..n + 1] == log[..n] + [log[n]];
    DataAppend(log[..n], log[n]);
    DataPrefix(log, n + 1);
  }

  /** Every message is one of the data packets of the log. */
  lemma {:induction false} DataIndex(log: seq<Packet>, k: nat) returns (b: nat)
    requires k < |DataOf(log)|
    ensures b < |log| && log[b].Data? && DataOf(log)[k] == Message(log[b].sent, log[b].payload)
    ensures |DataOf(log[..b])| == k
    decreases |log|
  {
    var front := log[..|log| - 1];
    assert log == front + [log[|log| - 1]];
    DataAppend(front, log[|log| - 1]);
    if k < |DataOf(front)| {
      b := DataIndex(front, k);
      assert front[..b] == log[..b];
    } else {
      b := |log| - 1;
    }
  }

  // ----- what an action does to the messages sent and received -----

  ghost function Sent(net: State, j: nat): seq<Message>
    requires In(net, j)
  {
    DataOf(net.nodes[j].log)
  }

  ghost predicate Linked(net: State, j: nat, i: nat) {
    && In(net, i) && In(net, j) && i != j
    && j < |net.nodes[i].seen| && net.nodes[i].seen[j] <= |net.nodes[j].log|
  }

  /** How many messages of j have reached i. */
  ghost function Got(net: State, j: nat, i: nat): nat
    requires Linked(net, j, i)
  {
    |DataOf(net.nodes[j].log[..net.nodes[i].seen[j]])|
  }

  ghost predicate Arrives(net: State, a: Action, j: nat, i: nat) {
    Enabled(net, a) && a == Deliver(j, i) && net.nodes[j].log[net.nodes[i].seen[j]].Data?
  }

  lemma SentAfter(net: State, a: Action, j: nat)
    requires Enabled(net, a) && In(net, j)
    ensures |Apply(net, a).nodes| == |net.nodes|
    ensures Sent(Apply(net, a), j)
            == if a.Publish? && a.who == j then Sent(net, j) + [Message(net.nodes[j].times.current.timePoint, a.payload)]
               else Sent(net, j)
  {
    var nd := net.nodes[j];
    match a
    case Publish(_, payload) => DataAppend(nd.log, Data(nd.times.current.timePoint, payload));
    case Start(_) => DataAppend(nd.log, Announce(nd.times.next));
    case Complete(_) => DataAppend(nd.log, Announce(nd.times.next));
    case _ =>
  }

  lemma NothingArrives(net: State, a: Action, j: nat, i: nat)
    requires Enabled(net, a) && Linked(net, j, i) && a != Deliver(j, i)
    ensures Linked(Apply(net, a), j, i) && Got(Apply(net, a), j, i) == Got(net, j, i)
  {
    var log, log', n := net.nodes[j].log, Apply(net, a).nodes[j].log, net.nodes[i].seen[j];
    assert log <= log' && log'[..n] == log[..n];
    assert Apply(net, a).nodes[i].seen[j] == n;
  }

  lemma GotAfter(net: State, a: Action, j: nat, i: nat)
    requires Enabled(net, a) && Linked(net, j, i)
    ensures Linked(Apply(net, a), j, i)
    ensures Got(Apply(net, a), j, i) == if Arrives(net, a, j, i) then Got(net, j, i) + 1 else Got(net, j, i)
    ensures Got(net, j, i) <= |Sent(net, j)|
    ensures Arrives(net, a, j, i) ==>
              && Got(net, j, i) < |Sent(net, j)|
              && Sent(net, j)[Got(net, j, i)] == MessageOf(net.nodes[j].log[net.nodes[i].seen[j]])
  {
    DataPrefix(net.nodes[j].log, net.nodes[i].seen[j]);
    if a == Deliver(j, i) {
      NextInOrder(net.nodes[j].log, net.nodes[i].seen[j]);
    } else {
      NothingArrives(net, a, j, i);
    }
  }

  function MessageOf(p: Packet): Message
    requires p.Data?
  {
    Message(p.sent, p.payload)
  }
}
