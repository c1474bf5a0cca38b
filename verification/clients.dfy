/**
 The clients of a room as objects, and the loops both rooms run over their client set: offering
 one message to everyone, and closing everyone's channel.
 */
module Clients {
  import opened Channels

  class Client<M> {
    var send: Channel<M>

    constructor ()
      ensures send == NewChannel()
    {
      send := NewChannel();
    }
  }

  /** The client set and the clients' channels are those of `crowd`. */
  ghost predicate Linked<M>(clients: set<Client<M>>, crowd: Crowd<Client<M>, M>)
    reads crowd.chans.Keys
  {
    && clients == crowd.clients <= crowd.chans.Keys
    && forall c | c in crowd.chans :: c.send == crowd.chans[c]
  }

  /** Offers a message to everyone but the sender, which may be null; deletes while iterating. */
  method Fanout<M>(clients: set<Client<M>>, sender: Client?<M>, m: M, dropOnFull: bool,
                   ghost crowd: Crowd<Client<M>, M>, ghost at: nat)
    returns (kept: set<Client<M>>)
    requires Linked(clients, crowd)
    modifies clients
    ensures Linked(kept, Deliver(crowd, clients - {sender}, m, dropOnFull, at))
  {
    ghost var to := clients - {sender};
    kept := clients;
    var rest := clients;
    while rest != {}
      invariant rest <= clients
      invariant kept == clients - Dropped(crowd.chans, to - rest, dropOnFull)
      invariant forall c | c in crowd.chans ::
                  c.send == if c in to - rest then crowd.chans[c].Offer(m, dropOnFull) else crowd.chans[c]
    {
      var client :| client in rest;
      rest := rest - {client};
      if client == sender {
        continue;
      }
      if client.send.Blocked() {
        if dropOnFull {
          kept := kept - {client};
          client.send := client.send.Close();
        }
      } else {
        client.send := client.send.Push(m);
      }
    }
  }

  /** Takes one client out of the set and closes its channel. */
  method Part<M>(clients: set<Client<M>>, client: Client<M>, ghost crowd: Crowd<Client<M>, M>, ghost at: nat)
    returns (kept: set<Client<M>>)
    requires Linked(clients, crowd) && client in clients
    modifies client
    ensures kept == clients - {client} && Linked(kept, CloseAll(crowd, {client}, at))
  {
    hide CloseAll;
    PartingEffect(crowd, client, at);
    kept := clients - {client};
    client.send := client.send.Close();
  }

  /** Closes every client's channel, the last thing a room does on shutdown. */
  method CloseEvery<M>(clients: set<Client<M>>, ghost crowd: Crowd<Client<M>, M>, ghost at: nat)
    requires Linked(clients, crowd)
    modifies clients
    ensures Linked({}, CloseAll(crowd, clients, at))
  {
    var rest := clients;
    while rest != {}
      invariant rest <= clients
      invariant forall c | c in crowd.chans ::
                  c.send == if c in clients - rest then crowd.chans[c].Close() else crowd.chans[c]
    {
      var client :| client in rest;
      rest := rest - {client};
      client.send := client.send.Close();
    }
    assert clients - clients == {};
  }
}
