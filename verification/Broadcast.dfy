/**
 * The contract of a bounded broadcast channel: a receiver sees only messages sent after it
 * subscribed, keeps unread messages after the sender is gone, and may lag behind the capacity.
 */
module Broadcast {
  datatype Received<+M> = Message(message: M) | Lagged | Closed | Empty

  /** `receivers` maps each live receiver to the index of the next message it will read. */
  datatype Channel<M> = Channel(capacity: nat, sent: seq<M>, open: bool, receivers: map<nat, nat>) {
    predicate Valid() {
      forall r :: r in receivers ==> receivers[r] <= |sent|
    }

    function Subscribe(r: nat): Channel<M> {
      this.(receivers := receivers[r := |sent|])
    }

    /** Sending with no live receiver fails and stores nothing. */
    function Send(m: M): Channel<M> {
      if receivers == map[] then this else this.(sent := sent + [m])
    }

    function Recv(r: nat): Received<M>
      requires Valid() && r in receivers
    {
      var next := receivers[r];
      if next < |sent| then
        if |sent| - next > capacity then Lagged else Message(sent[next])
      else if open then Empty
      else Closed
    }

    function Unsubscribe(r: nat): Channel<M> {
      this.(receivers := receivers - {r})
    }

    function DropSender(): Channel<M> {
      this.(open := false)
    }
  }

  function New<M>(capacity: nat): Channel<M> {
    Channel(capacity, [], true, map[])
  }

  function SendAll<M>(c: Channel<M>, ms: seq<M>): Channel<M> {
    if ms == [] then c else SendAll(c, ms[..|ms| - 1]).Send(ms[|ms| - 1])
  }

  lemma {:induction false} SendsAppend<M>(c: Channel<M>, ms: seq<M>)
    requires c.receivers != map[]
    ensures SendAll(c, ms) == c.(sent := c.sent + ms)
  {
    if ms == [] {
      assert c.sent + ms == c.sent;
    } else {
      SendsAppend(c, ms[..|ms| - 1]);
      assert c.sent + ms == c.sent + ms[..|ms| - 1] + [ms[|ms| - 1]];
    }
  }

  /**
   * A receiver reads the first message sent after it subscribed unless more than the capacity have
   * been sent since; closing the channel takes no message from it.
   */
  lemma ReadsFirstUnread<M>(c: Channel<M>, r: nat, ms: seq<M>)
    requires c.Valid()
    ensures var d := SendAll(c.Subscribe(r), ms);
      && d.Valid() && r in d.receivers
      && (ms == [] ==> d.Recv(r) == (if c.open then Empty else Closed) && d.DropSender().Recv(r) == Closed)
      && (0 < |ms| <= c.capacity ==> d.Recv(r) == d.DropSender().Recv(r) == Message(ms[0]))
      && (|ms| > c.capacity && ms != [] ==> d.Recv(r) == d.DropSender().Recv(r) == Lagged)
  {
    SendsAppend(c.Subscribe(r), ms);
  }
}
