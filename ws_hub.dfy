/**
 * The backend's WebSocket hub (`wsHub`), modelled sequentially: a set of
 * registered clients, each with a send channel of capacity 32 whose queued
 * messages are a sequence. `Broadcast` queues a message for every client
 * whose channel has room and removes (closes) every client whose channel is
 * full. Clients are natural-number identities handed out by `Add`.
 */
module WsHubs {
  import opened Wrappers

  /** `wsBufferSize`. */
  const BufferSize: nat := 32

  /** The clients that keep their registration after a broadcast: those whose
      channel had room. */
  function Survivors<M>(clients: set<nat>, buffers: map<nat, seq<M>>): set<nat>
    requires clients <= buffers.Keys
  {
    set c | c in clients && |buffers[c]| < BufferSize
  }

  /** The channel contents after a broadcast of `msg` to `clients`. */
  function Enqueued<M>(clients: set<nat>, buffers: map<nat, seq<M>>, msg: M): map<nat, seq<M>> {
    map c | c in buffers :: if c in clients && |buffers[c]| < BufferSize then buffers[c] + [msg] else buffers[c]
  }

  /** A broadcast evicts exactly the registered clients whose channel was
      full, appends the message to every other registered client's channel,
      never overfills a channel, and leaves channels of unregistered clients alone. */
  lemma BroadcastEffect<M>(clients: set<nat>, buffers: map<nat, seq<M>>, msg: M, c: nat)
    requires clients <= buffers.Keys
    requires forall d :: d in buffers ==> |buffers[d]| <= BufferSize
    ensures c in clients ==> (c in Survivors(clients, buffers) <==> |buffers[c]| < BufferSize)
    ensures c in Survivors(clients, buffers) ==> Enqueued(clients, buffers, msg)[c] == buffers[c] + [msg]
    ensures c in buffers ==> |Enqueued(clients, buffers, msg)[c]| <= BufferSize
    ensures c in buffers && c !in Survivors(clients, buffers) ==> Enqueued(clients, buffers, msg)[c] == buffers[c]
  {
  }

  /** A client that survives two broadcasts receives both messages, in order. */
  lemma {:induction false} BroadcastsInOrder<M>(clients: set<nat>, buffers: map<nat, seq<M>>, m1: M, m2: M, c: nat)
    requires clients <= buffers.Keys
    requires c in clients && |buffers[c]| + 2 <= BufferSize
    ensures var clients1 := Survivors(clients, buffers);
      var buffers1 := Enqueued(clients, buffers, m1);
      c in Survivors(clients1, buffers1)
      && Enqueued(clients1, buffers1, m2)[c] == buffers[c] + [m1, m2]
  {
    var clients1 := Survivors(clients, buffers);
    var buffers1 := Enqueued(clients, buffers, m1);
    assert c in clients1;
    assert buffers1[c] == buffers[c] + [m1];
    assert buffers[c] + [m1] + [m2] == buffers[c] + [m1, m2];
  }

  class WsHub<M> {
    /** The keys of the `clients` map. */
    var clients: set<nat>
    /** The messages queued in each client's `send` channel. */
    var buffers: map<nat, seq<M>>
    /** Clients whose `send` channel has been closed. */
    var closedSends: set<nat>
    /** Clients whose connection `Broadcast` closed. */
    var closedConns: set<nat>
    /** The identity the next `Add` hands out. */
    var nextId: nat

    ghost predicate Valid()
      reads this
    {
      clients <= buffers.Keys && closedSends <= buffers.Keys && clients !! closedSends
      && (forall c :: c in buffers ==> c < nextId && |buffers[c]| <= BufferSize)
    }

    /** `createWsHub`. */
    constructor ()
      ensures Valid()
      ensures clients == {} && buffers == map[] && closedSends == {} && closedConns == {}
    {
      clients := {};
      buffers := map[];
      closedSends := {};
      closedConns := {};
      nextId := 0;
    }

    /** `Add`: registers a new client with an empty channel. */
    method Add() returns (client: nat)
      requires Valid()
      modifies this
      ensures Valid()
      ensures client !in old(buffers)
      ensures clients == old(clients) + {client} && buffers == old(buffers)[client := []]
      ensures closedSends == old(closedSends) && closedConns == old(closedConns)
    {
      client := nextId;
      nextId := nextId + 1;
      clients := clients + {client};
      buffers := buffers[client := []];
    }

    /** `Remove`: a nil or unregistered client changes nothing; a registered
        one is unregistered and its channel, still open until now, is closed. */
    method Remove(client: Option<nat>)
      requires Valid()
      modifies this
      ensures Valid()
      ensures client.Some? && client.value in old(clients) ==>
        client.value !in old(closedSends)
        && clients == old(clients) - {client.value} && closedSends == old(closedSends) + {client.value}
      ensures !(client.Some? && client.value in old(clients)) ==>
        clients == old(clients) && closedSends == old(closedSends)
      ensures buffers == old(buffers) && closedConns == old(closedConns) && nextId == old(nextId)
    {
      if client.Some? && client.value in clients {
        clients := clients - {client.value};
        closedSends := closedSends + {client.value};
      }
    }

    /** `Broadcast`: visits a snapshot of the registered clients; a client
        with room gets the message queued, a full one is removed and its
        connection closed. */
    method Broadcast(msg: M)
      requires Valid()
      modifies this
      ensures Valid()
      ensures clients == Survivors(old(clients), old(buffers))
      ensures buffers == Enqueued(old(clients), old(buffers), msg)
      ensures closedSends == old(closedSends) + (old(clients) - clients)
      ensures closedConns == old(closedConns) + (old(clients) - clients)
      ensures nextId == old(nextId)
    {
      ghost var snapshot := clients;
      ghost var before := buffers;
      var pending := clients;
      while pending != {}
        invariant Valid()
        invariant pending <= snapshot && snapshot <= before.Keys && buffers.Keys == before.Keys
        invariant forall c :: c in clients <==> c in snapshot && (c in pending || |before[c]| < BufferSize)
        invariant forall c :: c in buffers ==>
          buffers[c] == if c in snapshot && c !in pending && |before[c]| < BufferSize then before[c] + [msg] else before[c]
        invariant forall c :: c in closedSends <==> c in old(closedSends) || (c in snapshot && c !in clients)
        invariant forall c :: c in closedConns <==> c in old(closedConns) || (c in snapshot && c !in clients)
        invariant nextId == old(nextId)
        decreases |pending|
      {
        var client :| client in pending;
        if |buffers[client]| < BufferSize {
          buffers := buffers[client := buffers[client] + [msg]];
        } else {
          Remove(Some(client));
          closedConns := closedConns + {client};
        }
        pending := pending - {client};
      }
      assert clients == Survivors(snapshot, before);
      assert buffers == Enqueued(snapshot, before, msg);
    }

    /** A receive on a client's `send` channel by its writer: the oldest
        queued message, or `None` once the channel is closed and drained.
        (A receive on an open, empty channel waits, so it is not a step.) */
    method Receive(client: nat) returns (msg: Option<M>)
      requires Valid()
      requires client in buffers && (buffers[client] != [] || client in closedSends)
      modifies this
      ensures Valid()
      ensures old(buffers)[client] != [] ==>
        msg == Some(old(buffers)[client][0]) && buffers == old(buffers)[client := old(buffers)[client][1..]]
      ensures old(buffers)[client] == [] ==> msg == None && buffers == old(buffers)
      ensures clients == old(clients) && closedSends == old(closedSends) && closedConns == old(closedConns)
    {
      if buffers[client] != [] {
        msg := Some(buffers[client][0]);
        buffers := buffers[client := buffers[client][1..]];
      } else {
        msg := None;
      }
    }
  }
}
