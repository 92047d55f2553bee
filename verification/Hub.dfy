/** The WebSocket hub: a client set, a topic set and a bounded send queue per client. */
module Hub {
  datatype Message = Ack | Event(topic: string, id: nat)

  const CAPACITY := 16

  function Topic(m: Message): string {
    if m.Ack? then "system" else m.topic
  }

  predicate Subscribed(topics: set<string>, topic: string) {
    topic == "" || topic in topics || topics == {}
  }

  /** The queue after a broadcast was offered to it: a full queue drops the message. */
  function Offered(topics: set<string>, queue: seq<Message>, m: Message): seq<Message> {
    if Subscribed(topics, Topic(m)) && |queue| < CAPACITY then queue + [m] else queue
  }

  class Client {
    var topics: set<string>
    var queue: seq<Message>
    var closed: bool

    constructor ()
      ensures topics == {} && queue == [] && !closed
    {
      topics, queue, closed := {}, [], false;
    }

    /** Sending on a closed channel panics; a full channel takes the other branch of the select. */
    method Send(m: Message)
      requires !closed
      modifies this`queue
      ensures queue == if |old(queue)| < CAPACITY then old(queue) + [m] else old(queue)
    {
      if |queue| < CAPACITY {
        queue := queue + [m];
      }
    }

    /** Closing a closed channel panics. */
    method Close()
      requires !closed
      modifies this`closed
      ensures closed
    {
      closed := true;
    }

    method Subscribe(wanted: seq<string>)
      modifies this`topics
      ensures topics == set t | t in wanted
    {
      topics := {};
      for i := 0 to |wanted|
        invariant topics == set t | t in wanted[..i]
      {
        topics := topics + {wanted[i]};
      }
    }
  }

  class ClientHub {
    var clients: set<Client>

    /** No member's channel is closed or over its capacity. */
    ghost predicate Valid()
      reads this, clients
    {
      forall c | c in clients :: !c.closed && |c.queue| <= CAPACITY
    }

    constructor ()
      ensures Valid() && clients == {}
    {
      clients := {};
    }

    method Add() returns (client: Client)
      requires Valid()
      modifies this
      ensures Valid() && fresh(client) && clients == old(clients) + {client}
      ensures client.topics == {} && client.queue == [] && !client.closed
    {
      client := new Client();
      clients := clients + {client};
    }

    /** Closes the channel of a member, and does nothing the second time. */
    method Remove(client: Client)
      requires Valid()
      modifies this, client`closed
      ensures Valid() && clients == old(clients) - {client}
      ensures client.closed == (old(client.closed) || client in old(clients))
    {
      if client in clients {
        clients := clients - {client};
        client.Close();
      }
    }

    /** Offers the message to every member once, in any order. */
    method Broadcast(m: Message)
      requires Valid()
      modifies clients`queue
      ensures Valid()
      ensures forall c | c in clients :: c.queue == Offered(c.topics, old(c.queue), m)
    {
      var rest := clients;
      while rest != {}
        invariant rest <= clients
        invariant forall c | c in clients :: c.queue == if c in rest then old(c.queue)
          else Offered(c.topics, old(c.queue), m)
        decreases |rest|
      {
        var client :| client in rest;
        rest := rest - {client};
        if !Subscribed(client.topics, Topic(m)) {
          continue;
        }
        client.Send(m);
      }
    }
  }
}
