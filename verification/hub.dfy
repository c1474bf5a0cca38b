/** The hub itself: one method for each lock section, proved to be the machine's step. */
module DocumentHub {
  import opened Common
  import opened DocumentLog
  import opened DocumentRoom
  import M = HubMachine

  class Hub {
    const documents: DocumentRepository
    var docRooms: map<string, Room>
    ghost var state: M.Hub<Room>

    ghost predicate Valid()
      reads this
    {
      docRooms == state.rooms && forall r | r in state.all :: r.documentID == state.all[r].id
    }

    constructor (documents: DocumentRepository)
      ensures Valid() && state == M.NewHub() && this.documents == documents
    {
      this.documents := documents;
      docRooms := map[];
      state := M.NewHub();
    }

    /** The fast path of GetOrCreateDocRoom, under the read lock. */
    method ReadSection(documentID: string, ghost call: nat) returns (room: Option<Room>)
      requires Valid() && M.Enabled(state, M.ReadCheck(call, documentID))
      modifies this`state
      ensures Valid() && state == M.Step(old(state), M.ReadCheck(call, documentID))
      ensures state.calls[call] == if room.Some? then M.Got(documentID, room.value) else M.Missed(documentID)
    {
      room := if documentID in docRooms then Some(docRooms[documentID]) else None;
      state := M.Step(state, M.ReadCheck(call, documentID));
    }

    /** The slow path, under the write lock: look again, then create. */
    method CreateSection(documentID: string, ghost call: nat) returns (room: Room)
      requires Valid() && call in state.calls && state.calls[call] == M.Missed(documentID)
      modifies this
      ensures Valid() && state == M.Created(old(state), call, room)
      ensures fresh(room) <==> documentID !in old(docRooms)
      ensures fresh(room) ==> M.Enabled(old(state), M.CreateSection(call, room))
      ensures state.calls[call] == M.Got(documentID, room)
    {
      if documentID in docRooms {
        room := docRooms[documentID];
      } else {
        room := new Room(documentID, documents);
        docRooms := docRooms[documentID := room];
      }
      state := M.Created(state, call, room);
    }

    /** What watchDocRoom does once the room's `done` is closed. */
    method WatchSection(room: Room)
      requires Valid() && M.Enabled(state, M.WatchSection(room))
      modifies this
      ensures Valid() && state == M.Step(old(state), M.WatchSection(room))
    {
      var documentID := room.documentID;
      if documentID in docRooms && docRooms[documentID] == room {
        docRooms := docRooms - {documentID};
      }
      state := M.Step(state, M.WatchSection(room));
    }
  }
}
