/** The board room itself: one method for each case of `Run`'s select. */
module BoardRooms {
  import opened Common
  import opened Channels
  import Clients
  import M = BoardMachine

  type BoardClient = Clients.Client<M.Notice>

  class BoardRoom {
    const boardID: string
    var clients: set<BoardClient>
    var broadcast: seq<Bytes>
    var done: bool
    ghost var state: M.Board<BoardClient>

    ghost predicate Valid()
      reads this, state.crowd.chans.Keys
    {
      Clients.Linked(clients, state.crowd) && broadcast == state.broadcast && done == state.done
    }

    constructor (boardID: string)
      ensures Valid() && fresh(this) && this.boardID == boardID && state == M.NewBoard()
    {
      this.boardID := boardID;
      clients := {};
      broadcast := [];
      done := false;
      state := M.NewBoard();
    }

    method Welcome(client: BoardClient, user: string, ghost crowd: Crowd<BoardClient, M.Notice>, ghost at: nat)
      requires Clients.Linked(clients, crowd) && client !in crowd.chans && client.send == NewChannel()
      modifies this`clients, client, clients
      ensures Clients.Linked(clients, M.Announce(crowd, client, user, at))
    {
      hide Deliver;
      clients := clients + {client};
      ghost var joined := Join(crowd, client, at);
      clients := Clients.Fanout(clients, client, M.Joined(user), false, joined, at);
    }

    method OnRegister(client: BoardClient, user: string)
      requires Valid() && M.Enabled(state, M.Register(client, user)) && client.send == NewChannel()
      modifies this`clients, this`state, client, clients
      ensures Valid() && state == M.Step(old(state), M.Register(client, user))
    {
      hide M.Announce;
      Welcome(client, user, state.crowd, |state.taken|);
      state := M.Step(state, M.Register(client, user));
    }

    method OnUnregister(client: BoardClient)
      requires Valid() && M.Enabled(state, M.Unregister(client))
      modifies this, client
      ensures Valid() && state == M.Step(old(state), M.Unregister(client))
    {
      if client !in clients {
        return;
      }
      clients := Clients.Part(clients, client, state.crowd, |state.taken|);
      done := clients == {};
      state := M.OnUnregister(state, client);
    }

    method OnBroadcast()
      requires Valid() && M.Enabled(state, M.TakeBroadcast)
      modifies this, clients
      ensures Valid() && state == M.Step(old(state), M.TakeBroadcast)
    {
      var data := broadcast[0];
      broadcast := broadcast[1..];
      assert clients - {null} == state.crowd.clients;
      clients := Clients.Fanout(clients, null, M.BoardEvent(data), true, state.crowd, |state.taken|);
      state := M.OnBroadcast(state);
    }

    method OnShutdown()
      requires Valid() && M.Enabled(state, M.Shutdown)
      modifies this, clients
      ensures Valid() && state == M.Step(old(state), M.Shutdown)
    {
      Clients.CloseEvery(clients, state.crowd, |state.taken|);
      clients := {};
      done := true;
      state := M.Step(state, M.Shutdown);
    }

    /** BroadcastToBoard's send into the room's channel. */
    method Publish(data: Bytes)
      requires Valid() && M.Enabled(state, M.Publish(data))
      modifies this`broadcast, this`state
      ensures Valid() && state == M.Step(old(state), M.Publish(data))
    {
      broadcast := broadcast + [data];
      state := M.Step(state, M.Publish(data));
    }
  }
}
