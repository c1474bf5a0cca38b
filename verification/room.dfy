/**
 The document room itself: the fields `Run` owns and one method for each case of its `select`,
 proved to do what the state machine says.
 */
module DocumentRoom {
  import opened Common
  import opened Channels
  import opened DocumentLog
  import opened RoomLog
  import Clients
  import M = RoomMachine

  type Client = Clients.Client<Message>

  class Room {
    const documentID: string
    const documents: DocumentRepository
    var clients: set<Client>
    var broadcast: seq<RoomMessage<Client>>
    var awareness: seq<RoomMessage<Client>>
    var done: bool
    /** The machine's state, with the history no field stores. */
    ghost var state: M.Room<Client>

    ghost predicate Valid()
      reads this, documents, state.crowd.chans.Keys
    {
      && Clients.Linked(clients, state.crowd)
      && broadcast == state.inbox.broadcast
      && awareness == state.inbox.awareness
      && done == state.done
      && documents.TrackedView(documentID) == state.store
    }

    constructor (documentID: string, documents: DocumentRepository)
      ensures Valid() && fresh(this)
      ensures this.documentID == documentID && this.documents == documents
      ensures state == M.NewRoom(documents.TrackedView(documentID))
    {
      this.documentID := documentID;
      this.documents := documents;
      clients := {};
      broadcast := [];
      awareness := [];
      done := false;
      state := M.NewRoom(documents.TrackedView(documentID));
    }

    method Welcome(client: Client, ghost crowd: Crowd<Client, Message>, ghost at: nat)
      requires Clients.Linked(clients, crowd) && client !in crowd.chans && client.send == NewChannel()
      modifies this`clients, client, clients
      ensures Clients.Linked(clients, M.Greet(crowd, client, at))
    {
      hide Deliver, Join;
      clients := clients + {client};
      client.send := client.send.Offer(SyncInit, true);
      clients := if client.send.closed then clients - {client} else clients;
      GreetEffect(crowd, client, SyncInit, at);
      ghost var greeted := Deliver(Join(crowd, client, at), {client}, SyncInit, true, at);
      clients := Clients.Fanout(clients, client, AwarenessQuery, false, greeted, at);
    }

    method Dismiss(client: Client, ghost crowd: Crowd<Client, Message>, ghost at: nat)
      requires Clients.Linked(clients, crowd) && client in clients
      modifies this`clients, client, clients
      ensures Clients.Linked(clients, M.SayGoodbye(crowd, client, at))
    {
      hide Deliver, CloseAll;
      ghost var left := CloseAll(crowd, {client}, at);
      clients := Clients.Part(clients, client, crowd, at);
      assert clients - {null} == left.clients;
      clients := Clients.Fanout(clients, null, CursorsGone, false, left, at);
    }

    /** `case client := <-r.register`, for a client fresh from NewClient. */
    method OnRegister(client: Client)
      requires Valid() && M.Enabled(state, M.Register(client)) && client.send == NewChannel()
      modifies this`clients, this`state, client, clients
      ensures Valid() && state == M.Step(old(state), M.Register(client))
    {
      hide M.Greet;
      Welcome(client, state.crowd, |state.log|);
      state := M.OnRegister(state, client);
    }

    /** `case client := <-r.unregister` */
    method OnUnregister(client: Client)
      requires Valid() && M.Enabled(state, M.Unregister(client))
      modifies this, client, clients
      ensures Valid() && state == M.Step(old(state), M.Unregister(client))
    {
      hide M.SayGoodbye;
      if client !in clients {
        return;
      }
      Dismiss(client, state.crowd, |state.log|);
      done := clients == {};
      state := M.OnUnregister(state, client);
    }

    /** `case msg := <-r.broadcast`: persist, then send to the others. */
    method OnBroadcast(fault: bool)
      requires Valid() && M.Enabled(state, M.TakeBroadcast(fault))
      modifies this, documents, clients
      ensures Valid() && state == M.Step(old(state), M.TakeBroadcast(fault))
    {
      var msg := broadcast[0];
      broadcast := broadcast[1..];
      var clock := documents.IncrementClock(documentID, msg.data, fault);
      if clock.Ok? {
        clients := Clients.Fanout(clients, msg.sender, Update(clock.value, msg.data), true, state.crowd, |state.log|);
      }
      state := M.OnBroadcast(state, fault);
    }

    /** `case msg := <-r.awareness` */
    method OnAwareness()
      requires Valid() && M.Enabled(state, M.TakeAwareness)
      modifies this, clients
      ensures Valid() && state == M.Step(old(state), M.TakeAwareness)
    {
      var msg := awareness[0];
      awareness := awareness[1..];
      clients := Clients.Fanout(clients, msg.sender, Awareness(msg.data), false, state.crowd, |state.log|);
      state := M.OnAwareness(state);
    }

    /** `case <-r.shutdown`: every channel is closed and the set emptied. */
    method OnShutdown()
      requires Valid() && M.Enabled(state, M.Shutdown)
      modifies this, clients
      ensures Valid() && state == M.Step(old(state), M.Shutdown)
    {
      Clients.CloseEvery(clients, state.crowd, |state.log|);
      clients := {};
      done := true;
      state := M.OnShutdown(state);
    }

    /** One turn of a client's ReadPump: dispatch on the first byte, discard anything else. */
    method OnReceive(client: Client, message: Bytes)
      requires Valid() && M.Enabled(state, M.Receive(client, message))
      modifies this`broadcast, this`awareness, this`state
      ensures Valid() && state == M.Step(old(state), M.Receive(client, message))
    {
      if |message| > 0 {
        if message[0] == M.MSG_SYNC {
          broadcast := broadcast + [RoomMessage(client, message)];
        } else if message[0] == M.MSG_AWARENESS {
          awareness := awareness + [RoomMessage(client, message)];
        }
      }
      state := M.Step(state, M.Receive(client, message));
    }

    /** One turn of a client's WritePump. */
    method OnDrain(client: Client)
      requires Valid() && M.Enabled(state, M.Drain(client))
      modifies this`state, client
      ensures Valid() && state == M.Step(old(state), M.Drain(client))
    {
      client.send := client.send.Drain();
      state := M.Step(state, M.Drain(client));
    }

    /** An event of the loop or of a pump, the ones that touch this room's fields. */
    static predicate IsLocal(e: M.Event<Client>, everyone: set<Client>) {
      && !e.Compaction? && !e.Deletion?
      && (e.Register? || e.Unregister? || e.Receive? || e.Drain? ==> e.client in everyone)
    }

    /** One choice of `Run`'s select, or one turn of a pump. */
    method Turn(e: M.Event<Client>, ghost everyone: set<Client>)
      requires Valid() && M.Enabled(state, e) && IsLocal(e, everyone) && state.crowd.chans.Keys <= everyone
      requires forall c | c in everyone && c !in state.crowd.chans :: c.send == NewChannel()
      modifies this, documents, everyone
      ensures Valid() && state == M.Step(old(state), e) && state.crowd.chans.Keys <= everyone
      ensures forall c | c in everyone && c !in state.crowd.chans :: c.send == NewChannel()
    {
      match e
      case Register(c) => OnRegister(c);
      case Unregister(c) => OnUnregister(c);
      case TakeBroadcast(fault) => OnBroadcast(fault);
      case TakeAwareness => OnAwareness();
      case Shutdown => OnShutdown();
      case Receive(c, m) => OnReceive(c, m);
      case Drain(c) => OnDrain(c);
    }

    /** `Run`: the loop over whatever the select chose, with the pumps' turns in between. */
    method Run(events: seq<M.Event<Client>>, ghost everyone: set<Client>)
      requires Valid() && state.crowd.chans.Keys <= everyone
      requires forall c | c in everyone && c !in state.crowd.chans :: c.send == NewChannel()
      requires forall i | 0 <= i < |events| ::
                 IsLocal(events[i], everyone) && M.Enabled(M.Exec(state, events[..i]), events[i])
      modifies this, documents, everyone
      ensures Valid() && state == M.Exec(old(state), events)
    {
      hide M.Step, M.Enabled;
      var i := 0;
      while i < |events|
        invariant i <= |events|
        invariant Valid() && state.crowd.chans.Keys <= everyone && state == M.Exec(old(state), events[..i])
        invariant forall c | c in everyone && c !in state.crowd.chans :: c.send == NewChannel()
      {
        Turn(events[i], everyone);
        assert events[..i + 1][..i] == events[..i];
        i := i + 1;
      }
      assert events[..i] == events;
    }
  }
}
