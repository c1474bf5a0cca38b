/**
 The hub, its rooms and the documents the rooms write to, as one machine. Rooms of one document
 share its rows; that they never write at the same time is the hub's doing.
 */
module Collaboration {
  import opened Common
  import opened DocumentLog
  import opened RoomLog
  import H = HubMachine
  import M = RoomMachine
  import S = RoomSafety

  /** `rooms` are all rooms ever created, `stores` all documents ever created. */
  datatype System<R, C> = System(hub: H.Hub<R>, rooms: map<R, M.Room<C>>, stores: map<string, Tracked>)

  datatype Event<R, C> =
    | NewDocument(id: string)
    | DeleteDocument(id: string)
    | Compact(id: string, snapshot: Bytes, clock: nat, fault: bool)
    | InHub(hubEvent: H.Event<R>)
    | InRoom(room: R, roomEvent: M.Event<C>)

  function NewSystem<R(==), C(==)>(): System<R, C> {
    System(H.NewHub(), map[], map[])
  }

  /** A call is for a document that was there at some time; `Run` returns once its loop has ended. */
  predicate Enabled<R(==), C(==)>(s: System<R, C>, e: Event<R, C>) {
    match e
    case NewDocument(id) => id !in s.stores
    case DeleteDocument(id) => id in s.stores
    case Compact(id, _, clock, _) => id in s.stores && InRange(s.stores[id], clock)
    case InHub(h) =>
      && H.Enabled(s.hub, h)
      && (h.ReadCheck? ==> h.id in s.stores)
      && (h.CreateSection? ==> s.hub.calls[h.call].id in s.stores)
      && (h.RunReturns? ==> h.room in s.rooms && s.rooms[h.room].done)
    case InRoom(room, r) =>
      && room in s.rooms && room in s.hub.all && s.hub.all[room].id in s.stores
      && !r.Compaction? && !r.Deletion?
      && M.Enabled(s.rooms[room], r)
  }

  function HubStep<R(==), C(==)>(s: System<R, C>, h: H.Event<R>): System<R, C>
    requires Enabled(s, InHub(h))
  {
    var hub := H.Step(s.hub, h);
    if h.CreateSection? && h.made in hub.all then
      System(hub, s.rooms[h.made := M.NewRoom(s.stores[s.hub.calls[h.call].id])], s.stores)
    else s.(hub := hub)
  }

  /** A persist goes to the document's shared rows; nothing else a room does depends on them. */
  function RoomStep<R(==), C(==)>(s: System<R, C>, room: R, r: M.Event<C>): System<R, C>
    requires Enabled(s, InRoom(room, r))
  {
    var id := s.hub.all[room].id;
    if r.TakeBroadcast? then
      var after := M.Step(s.rooms[room].(store := s.stores[id]), r);
      s.(rooms := s.rooms[room := after], stores := s.stores[id := after.store])
    else s.(rooms := s.rooms[room := M.Step(s.rooms[room], r)])
  }

  /** An event that is not enabled does not happen. */
  function Step<R(==), C(==)>(s: System<R, C>, e: Event<R, C>): System<R, C> {
    if !Enabled(s, e) then s else
    match e
    case NewDocument(id) => s.(stores := s.stores[id := NEW_DOCUMENT])
    case DeleteDocument(id) => s.(stores := s.stores[id := s.stores[id].(doc := None)])
    case Compact(id, snapshot, clock, fault) =>
      s.(stores := s.stores[id := CompactTracked(s.stores[id], snapshot, clock, fault)])
    case InHub(h) => HubStep(s, h)
    case InRoom(room, r) => RoomStep(s, room, r)
  }

  function Exec<R(==), C(==)>(events: seq<Event<R, C>>): System<R, C> {
    if events == [] then NewSystem() else Step(Exec(events[..|events| - 1]), events[|events| - 1])
  }

  // ---------- what every run keeps ----------

  function End<C>(r: M.Room<C>): nat {
    r.start + |r.log|
  }

  /** A room's rows are where it says in the document's history; while its loop runs they are the last ones. */
  ghost predicate Fits<C>(r: M.Room<C>, running: bool, store: Tracked) {
    && S.RoomOk(r)
    && r.store.history <= store.history
    && (!r.done ==> running && r.store.history == store.history)
  }

  ghost predicate RoomsFit<R, C>(s: System<R, C>) {
    && s.hub.all.Keys == s.rooms.Keys
    && forall r | r in s.rooms ::
         && s.hub.all[r].id in s.stores
         && Fits(s.rooms[r], s.hub.all[r].running, s.stores[s.hub.all[r].id])
  }

  /** No two rooms of a document wrote the same stretch of its history. */
  ghost predicate RoomsApart<R, C>(s: System<R, C>)
    requires s.hub.all.Keys == s.rooms.Keys
  {
    forall a, b | a in s.rooms && b in s.rooms && a != b && s.hub.all[a].id == s.hub.all[b].id ::
      && (End(s.rooms[a]) <= s.rooms[b].start || End(s.rooms[b]) <= s.rooms[a].start)
      && (!s.rooms[a].done ==> End(s.rooms[b]) <= s.rooms[a].start)
  }

  predicate Wrote<R(==), C>(s: System<R, C>, room: R, id: string, k: nat) {
    && room in s.rooms && room in s.hub.all && s.hub.all[room].id == id
    && s.rooms[room].start <= k < End(s.rooms[room])
  }

  ghost predicate IsWritten<R, C>(s: System<R, C>, id: string, k: nat) {
    exists r | r in s.rooms :: Wrote(s, r, id, k)
  }

  /** Every update of a document was persisted by one of its rooms. */
  ghost predicate AllWritten<R, C>(s: System<R, C>) {
    forall id, k: nat | id in s.stores && k < |s.stores[id].history| :: IsWritten(s, id, k)
  }

  ghost predicate SystemOk<R, C>(s: System<R, C>) {
    && H.HubOk(s.hub)
    && RoomsFit(s)
    && RoomsApart(s)
    && AllWritten(s)
    && forall id | id in s.stores :: Consistent(s.stores[id])
  }

  /** Where histories and the rooms' stretches stay, everything stays written. */
  lemma StaysWritten<R, C>(s: System<R, C>, after: System<R, C>)
    requires AllWritten(s)
    requires forall id | id in after.stores ::
               after.stores[id].history == if id in s.stores then s.stores[id].history else []
    requires forall r | r in s.rooms && r in s.hub.all ::
               && r in after.rooms && r in after.hub.all && after.hub.all[r].id == s.hub.all[r].id
               && after.rooms[r].start == s.rooms[r].start && End(after.rooms[r]) == End(s.rooms[r])
    ensures AllWritten(after)
  {
    forall id, k: nat | id in after.stores && k < |after.stores[id].history| ensures IsWritten(after, id, k) {
      assert IsWritten(s, id, k);
      var r :| r in s.rooms && Wrote(s, r, id, k);
      assert Wrote(after, r, id, k);
    }
  }

  /** A document changed outside its rooms: the history stays. */
  lemma DocumentChangeKeeps<R, C>(s: System<R, C>, id: string, store: Tracked)
    requires SystemOk(s) && Consistent(store)
    requires store.history == if id in s.stores then s.stores[id].history else []
    ensures SystemOk(s.(stores := s.stores[id := store]))
  {
    hide S.RoomOk, H.HubOk, Consistent, AllWritten;
    StaysWritten(s, s.(stores := s.stores[id := store]));
  }

  /** A lock section that creates no room, or a room's end. */
  lemma HubChangeKeeps<R, C>(s: System<R, C>, hub: H.Hub<R>)
    requires SystemOk(s) && H.HubOk(hub) && hub.all.Keys == s.hub.all.Keys
    requires forall r | r in hub.all :: hub.all[r].id == s.hub.all[r].id
    requires forall r | r in s.rooms && r in hub.all && !s.rooms[r].done :: hub.all[r].running
    ensures SystemOk(s.(hub := hub))
  {
    hide S.RoomOk, H.HubOk, Consistent, AllWritten;
    StaysWritten(s, s.(hub := hub));
  }

  lemma EndedRooms<R, C>(s: System<R, C>, id: string)
    requires RoomsFit(s) && id in s.stores
    requires forall r | r in s.hub.all && s.hub.all[r].id == id :: !s.hub.all[r].running
    ensures forall r | r in s.rooms && s.hub.all[r].id == id :: s.rooms[r].done && End(s.rooms[r]) <= |s.stores[id].history|
  {
    forall r | r in s.rooms && s.hub.all[r].id == id ensures s.rooms[r].done && End(s.rooms[r]) <= |s.stores[id].history| {
      RoomOkMeaning(s.rooms[r]);
    }
  }

  lemma CreatedFits<R, C>(s: System<R, C>, hub: H.Hub<R>, made: R, id: string)
    requires RoomsFit(s) && id in s.stores && hub.all == s.hub.all[made := H.Room(id, true)]
    requires Consistent(s.stores[id])
    ensures RoomsFit(System(hub, s.rooms[made := M.NewRoom(s.stores[id])], s.stores))
  {
    hide S.RoomOk, Consistent;
    S.NewRoomOk<C>(s.stores[id]);
  }

  /** A new room starts where the history ends, while every older room of its document has ended. */
  lemma CreationKeeps<R, C>(s: System<R, C>, hub: H.Hub<R>, made: R, id: string)
    requires SystemOk(s) && H.HubOk(hub) && made !in s.hub.all && id in s.stores
    requires hub.all == s.hub.all[made := H.Room(id, true)]
    requires forall r | r in s.hub.all && s.hub.all[r].id == id :: !s.hub.all[r].running
    ensures SystemOk(System(hub, s.rooms[made := M.NewRoom(s.stores[id])], s.stores))
  {
    hide Fits, H.HubOk, Consistent, AllWritten;
    EndedRooms(s, id);
    CreatedFits(s, hub, made, id);
    StaysWritten(s, System(hub, s.rooms[made := M.NewRoom(s.stores[id])], s.stores));
  }

  lemma HubStepKeeps<R, C>(s: System<R, C>, h: H.Event<R>)
    requires SystemOk(s) && Enabled(s, InHub(h))
    ensures SystemOk(HubStep(s, h))
  {
    hide SystemOk, RoomsFit, RoomsApart, AllWritten;
    assert H.HubOk(s.hub) && RoomsFit(s) by { SystemParts(s); }
    H.StepKeepsHub(s.hub, h);
    var hub := H.Step(s.hub, h);
    RoomsKnown(s);
    if h.CreateSection? && h.made in hub.all {
      CreationKeeps(s, hub, h.made, s.hub.calls[h.call].id);
    } else {
      HubChangeKeeps(s, hub);
    }
  }

  lemma SystemParts<R, C>(s: System<R, C>)
    requires SystemOk(s)
    ensures H.HubOk(s.hub) && RoomsFit(s) && RoomsApart(s)
  {
  }

  lemma RoomsKnown<R, C>(s: System<R, C>)
    requires RoomsFit(s)
    ensures s.hub.all.Keys == s.rooms.Keys
    ensures forall r | r in s.rooms && !s.rooms[r].done :: s.hub.all[r].running
  {
  }

  /** What one event of a room's loop or pumps does to its rows. */
  lemma RoomStepEffect<C>(r: M.Room<C>, e: M.Event<C>)
    requires S.RoomOk(r) && M.Enabled(r, e) && !e.Compaction? && !e.Deletion?
    ensures var after := M.Step(r, e);
            && S.RoomOk(after) && after.start == r.start && (r.done ==> after.done)
            && (if e.TakeBroadcast? then !r.done && r.store.history <= after.store.history
                else after.store == r.store && after.log == r.log)
  {
    S.StepKeepsRoom(r, e);
  }

  lemma SharedRowsFit<C>(r: M.Room<C>, running: bool, store: Tracked)
    requires Fits(r, running, store) && !r.done && Consistent(store)
    ensures S.RoomOk(r.(store := store))
  {
  }

  lemma RoomOkMeaning<C>(r: M.Room<C>)
    requires S.RoomOk(r)
    ensures |r.store.history| == End(r) && Consistent(r.store)
  {
  }

  /** Only the room's clients, inbox or end changed. */
  ghost predicate SameRows<C>(before: M.Room<C>, r: M.Room<C>) {
    r.start == before.start && r.log == before.log && r.store == before.store && (before.done ==> r.done)
  }

  lemma QuietFits<R, C>(s: System<R, C>, room: R, r: M.Room<C>)
    requires RoomsFit(s) && room in s.rooms && S.RoomOk(r) && SameRows(s.rooms[room], r)
    ensures RoomsFit(s.(rooms := s.rooms[room := r]))
  {
    hide S.RoomOk;
  }

  lemma QuietApart<R, C>(s: System<R, C>, room: R, r: M.Room<C>)
    requires s.hub.all.Keys == s.rooms.Keys && RoomsApart(s) && room in s.rooms && SameRows(s.rooms[room], r)
    ensures RoomsApart(s.(rooms := s.rooms[room := r]))
  {
  }

  /** An event that persists nothing. */
  lemma QuietStepKeeps<R, C>(s: System<R, C>, room: R, r: M.Room<C>)
    requires SystemOk(s) && room in s.rooms && S.RoomOk(r) && SameRows(s.rooms[room], r)
    ensures SystemOk(s.(rooms := s.rooms[room := r]))
  {
    hide Fits, S.RoomOk, H.HubOk, Consistent, AllWritten, RoomsApart;
    QuietFits(s, room, r);
    QuietApart(s, room, r);
    StaysWritten(s, s.(rooms := s.rooms[room := r]));
  }

  /** While a room of a document runs, every other one has ended before it started. */
  lemma OnlyRunning<R, C>(s: System<R, C>, room: R)
    requires SystemOk(s) && room in s.rooms && !s.rooms[room].done
    ensures forall other | other in s.rooms && other != room && s.hub.all[other].id == s.hub.all[room].id ::
              s.rooms[other].done && End(s.rooms[other]) <= s.rooms[room].start
  {
    hide S.RoomOk, Consistent, AllWritten;
  }

  lemma FitGrows<R, C>(s: System<R, C>, room: R, r: M.Room<C>)
    requires RoomsFit(s) && room in s.rooms && S.RoomOk(r) && !s.rooms[room].done
    requires s.stores[s.hub.all[room].id].history <= r.store.history
    requires forall other | other in s.rooms && other != room && s.hub.all[other].id == s.hub.all[room].id :: s.rooms[other].done
    ensures RoomsFit(s.(rooms := s.rooms[room := r], stores := s.stores[s.hub.all[room].id := r.store]))
  {
    hide S.RoomOk;
  }

  lemma ApartGrows<R, C>(s: System<R, C>, room: R, r: M.Room<C>, stores: map<string, Tracked>)
    requires s.hub.all.Keys == s.rooms.Keys && RoomsApart(s) && room in s.rooms && r.start == s.rooms[room].start
    requires !s.rooms[room].done
    requires forall other | other in s.rooms && other != room && s.hub.all[other].id == s.hub.all[room].id ::
               s.rooms[other].done && End(s.rooms[other]) <= r.start
    ensures RoomsApart(s.(rooms := s.rooms[room := r], stores := stores))
  {
  }

  /** A running room, and its document with what it may have added: no other room is in its way. */
  lemma WriteKeeps<R, C>(s: System<R, C>, room: R, r: M.Room<C>)
    requires SystemOk(s) && room in s.rooms && S.RoomOk(r) && !s.rooms[room].done
    requires r.start == s.rooms[room].start && s.stores[s.hub.all[room].id].history <= r.store.history
    ensures SystemOk(s.(rooms := s.rooms[room := r], stores := s.stores[s.hub.all[room].id := r.store]))
  {
    hide S.RoomOk, H.HubOk, Consistent, AllWritten, RoomsApart;
    OnlyRunning(s, room);
    RoomOkMeaning(r);
    RoomOkMeaning(s.rooms[room]);
    FitGrows(s, room, r);
    ApartGrows(s, room, r, s.stores[s.hub.all[room].id := r.store]);
    WrittenGrows(s, room, r);
  }

  lemma WrittenGrows<R, C>(s: System<R, C>, room: R, r: M.Room<C>)
    requires AllWritten(s) && room in s.rooms && room in s.hub.all && s.hub.all[room].id in s.stores
    requires var before := s.rooms[room]; var store := s.stores[s.hub.all[room].id];
             r.start == before.start && End(before) == |store.history| <= |r.store.history| == End(r)
    ensures AllWritten(s.(rooms := s.rooms[room := r], stores := s.stores[s.hub.all[room].id := r.store]))
  {
    var id := s.hub.all[room].id;
    var after := s.(rooms := s.rooms[room := r], stores := s.stores[id := r.store]);
    forall other, k: nat | other in after.stores && k < |after.stores[other].history| ensures IsWritten(after, other, k) {
      if other == id && k >= |s.stores[id].history| {
        assert Wrote(after, room, id, k);
      } else {
        assert IsWritten(s, other, k);
        var q :| q in s.rooms && Wrote(s, q, other, k);
        assert Wrote(after, q, other, k);
      }
    }
  }

  lemma RoomStepKeeps<R, C>(s: System<R, C>, room: R, e: M.Event<C>)
    requires SystemOk(s) && Enabled(s, InRoom(room, e))
    ensures SystemOk(RoomStep(s, room, e))
  {
    hide S.RoomOk, Consistent, M.Step, RoomsApart, AllWritten;
    var r, id := s.rooms[room], s.hub.all[room].id;
    if e.TakeBroadcast? {
      var shared := r.(store := s.stores[id]);
      SharedRowsFit(r, s.hub.all[room].running, s.stores[id]);
      RoomStepEffect(shared, e);
      WriteKeeps(s, room, M.Step(shared, e));
    } else {
      RoomStepEffect(r, e);
      QuietStepKeeps(s, room, M.Step(r, e));
    }
  }

  lemma StepKeeps<R, C>(s: System<R, C>, e: Event<R, C>)
    requires SystemOk(s)
    ensures SystemOk(Step(s, e))
  {
    hide SystemOk, HubStep, RoomStep;
    if Enabled(s, e) {
      match e
      case NewDocument(id) => DocumentChangeKeeps(s, id, NEW_DOCUMENT);
      case DeleteDocument(id) =>
        StoresConsistent(s);
        DocumentChangeKeeps(s, id, s.stores[id].(doc := None));
      case Compact(id, snapshot, clock, fault) =>
        StoresConsistent(s);
        CompactKeepsConsistent(s.stores[id], snapshot, clock, fault);
        DocumentChangeKeeps(s, id, CompactTracked(s.stores[id], snapshot, clock, fault));
      case InHub(h) => HubStepKeeps(s, h);
      case InRoom(room, r) => RoomStepKeeps(s, room, r);
    }
  }

  lemma StoresConsistent<R, C>(s: System<R, C>)
    requires SystemOk(s)
    ensures forall id | id in s.stores :: Consistent(s.stores[id])
  {
  }

  lemma {:induction false} RunKeepsSystem<R, C>(events: seq<Event<R, C>>)
    ensures SystemOk(Exec(events))
  {
    hide Step;
    if events != [] {
      RunKeepsSystem(events[..|events| - 1]);
      StepKeeps(Exec(events[..|events| - 1]), events[|events| - 1]);
    }
  }

  // ---------- over every run ----------

  /** The room's rows are the updates from `start` on, clock by clock. */
  ghost predicate RowsOf<C>(r: M.Room<C>, history: seq<Bytes>) {
    && End(r) <= |history|
    && forall i | 0 <= i < |r.log| :: r.log[i].clock == r.start + i + 1 && r.log[i].data == history[r.start + i]
  }

  lemma FittingRows<C>(r: M.Room<C>, running: bool, store: Tracked)
    requires Fits(r, running, store)
    ensures RowsOf(r, store.history) && (!r.done ==> running && End(r) == |store.history|)
  {
  }

  /** `c` has been queued the latest updates of the document, all that others sent since it joined. */
  ghost predicate MissesNothing<C>(r: M.Room<C>, c: C, history: seq<Bytes>) {
    && c in r.crowd.chans && c in r.crowd.joinedAt && r.crowd.joinedAt[c] <= |r.log|
    && Updates(r.crowd.chans[c].queued) == Foreign(r.log[r.crowd.joinedAt[c]..], c)
    && RowsOf(r, history) && End(r) == |history|
  }

  lemma MemberMissesNothing<C>(r: M.Room<C>, c: C, running: bool, store: Tracked)
    requires Fits(r, running, store) && c in r.crowd.clients
    ensures !r.done && running && MissesNothing(r, c, store.history)
  {
    hide Updates, Foreign;
    FittingRows(r, running, store);
    S.MemberIsServed(r, c);
  }

  lemma WrittenOnce<R, C>(s: System<R, C>, id: string, k: nat, a: R, b: R)
    requires s.hub.all.Keys == s.rooms.Keys && RoomsApart(s) && Wrote(s, a, id, k) && Wrote(s, b, id, k)
    ensures a == b
  {
  }

  /**
   However calls, rooms, watchers, pumps, compactions and deletions interleave, every update of a
   document was persisted by exactly one of its rooms, under its own clock.
   */
  lemma EveryUpdateHasOneRoom<R, C>(events: seq<Event<R, C>>, id: string, k: nat)
    requires id in Exec(events).stores && k < |Exec(events).stores[id].history|
    ensures var s := Exec(events);
            && (exists r | r in s.rooms :: Wrote(s, r, id, k))
            && (forall a, b | a in s.rooms && b in s.rooms && Wrote(s, a, id, k) && Wrote(s, b, id, k) :: a == b)
            && (forall r | r in s.rooms && Wrote(s, r, id, k) ::
                  var row := s.rooms[r].log[k - s.rooms[r].start];
                  row.clock == k + 1 && row.data == s.stores[id].history[k])
  {
    hide Exec, S.RoomOk, RoomsApart, H.HubOk, Consistent;
    RunKeepsSystem(events);
    var s := Exec(events);
    assert IsWritten(s, id, k);
    forall a, b | a in s.rooms && b in s.rooms && Wrote(s, a, id, k) && Wrote(s, b, id, k) ensures a == b {
      WrittenOnce(s, id, k, a, b);
    }
    forall r | r in s.rooms && Wrote(s, r, id, k)
      ensures var row := s.rooms[r].log[k - s.rooms[r].start];
              row.clock == k + 1 && row.data == s.stores[id].history[k]
    {
      FittingRows(s.rooms[r], s.hub.all[r].running, s.stores[id]);
    }
  }

  /**
   A client connected to any room has been queued exactly what others have persisted to the
   document since the client joined, clock after clock up to the latest, whatever other rooms there were.
   */
  lemma ConnectedClientsMissNothing<R, C>(events: seq<Event<R, C>>, room: R, c: C)
    requires room in Exec(events).rooms && c in Exec(events).rooms[room].crowd.clients
    ensures var s := Exec(events);
            && room in s.hub.all && s.hub.all[room].id in s.stores
            && !s.rooms[room].done && s.hub.all[room].running
            && MissesNothing(s.rooms[room], c, s.stores[s.hub.all[room].id].history)
  {
    hide Exec, MissesNothing, S.RoomOk, RoomsApart, H.HubOk, Consistent, AllWritten;
    RunKeepsSystem(events);
    var s := Exec(events);
    MemberMissesNothing(s.rooms[room], c, s.hub.all[room].running, s.stores[s.hub.all[room].id]);
  }

  // ---------- what the events do ----------

  /** A room's event is that room's step on the document's shared rows; no other room, no other document and not the hub. */
  lemma RoomsActAlone<R, C>(s: System<R, C>, room: R, e: M.Event<C>)
    requires room in s.rooms && room in s.hub.all && s.hub.all[room].id in s.stores
    requires M.Enabled(s.rooms[room], e) && !e.Compaction? && !e.Deletion?
    ensures var after := Step(s, InRoom(room, e)); var id := s.hub.all[room].id;
            && after.hub == s.hub
            && after.rooms.Keys == s.rooms.Keys && after.stores.Keys == s.stores.Keys
            && (forall r | r in s.rooms && r != room :: after.rooms[r] == s.rooms[r])
            && (forall d | d in s.stores && d != id :: after.stores[d] == s.stores[d])
            && (e.TakeBroadcast? ==>
                  && after.rooms[room] == M.Step(s.rooms[room].(store := s.stores[id]), e)
                  && after.stores[id] == after.rooms[room].store)
            && (!e.TakeBroadcast? ==> after.rooms[room] == M.Step(s.rooms[room], e) && after.stores == s.stores)
  {
    hide M.Step;
  }

  /** The hub's events are the hub's; only a call that finds no room under the lock creates one. */
  lemma HubActsAlone<R, C>(s: System<R, C>, h: H.Event<R>)
    requires H.Enabled(s.hub, h)
    requires h.ReadCheck? ==> h.id in s.stores
    requires h.CreateSection? ==> s.hub.calls[h.call].id in s.stores
    requires h.RunReturns? ==> h.room in s.rooms && s.rooms[h.room].done
    ensures var after := Step(s, InHub(h));
            && after.hub == H.Step(s.hub, h) && after.stores == s.stores
            && (if h.CreateSection? && s.hub.calls[h.call].id !in s.hub.rooms
                then after.rooms == s.rooms[h.made := M.NewRoom(s.stores[s.hub.calls[h.call].id])]
                else after.rooms == s.rooms)
  {
  }

  /** A compaction the database takes leaves the snapshot and exactly the rows after its clock, and no room notices. */
  lemma CompactionActs<R, C>(s: System<R, C>, id: string, snapshot: Bytes, clock: nat)
    requires id in s.stores && Consistent(s.stores[id]) && s.stores[id].doc.Some?
    requires s.stores[id].compacted <= clock <= |s.stores[id].history|
    ensures var after := Step(s, Compact(id, snapshot, clock, false));
            && after == s.(stores := s.stores[id := after.stores[id]])
            && after.stores[id].history == s.stores[id].history
            && after.stores[id].doc.Some? && after.stores[id].doc.value.snapshot == Some(snapshot)
            && after.stores[id].doc.value.clock == clock
            && (forall k :: k in after.stores[id].doc.value.rows <==> clock < k <= |s.stores[id].history|)
  {
  }

  /** From its deletion on a document is gone for good, and nothing more is persisted to it. */
  lemma {:induction false} DeletedStaysDeleted<R, C>(events: seq<Event<R, C>>, id: string, more: seq<Event<R, C>>)
    requires id in Exec(events).stores
    ensures var before := Exec(events).stores[id];
            var s := Exec(events + [DeleteDocument(id)] + more);
            id in s.stores && s.stores[id].doc.None? && s.stores[id].history == before.history
    decreases |more|
  {
    hide Step;
    var deleted := events + [DeleteDocument(id)];
    if more == [] {
      assert deleted[..|events|] == events && deleted + more == deleted;
      DeletionActs(Exec(events), id);
    } else {
      var n := |more| - 1;
      DeletedStaysDeleted(events, id, more[..n]);
      assert (deleted + more)[..|deleted| + n] == deleted + more[..n];
      GoneStaysGone(Exec(deleted + more[..n]), more[n], id);
    }
  }

  /** A new document is empty and has its own identifier. */
  lemma CreationActs<R, C>(s: System<R, C>, id: string)
    requires id !in s.stores
    ensures var after := Step(s, NewDocument(id));
            && after.stores == s.stores[id := Tracked(Some(Document(None, 0, map[])), [], 0)]
            && after.rooms == s.rooms && after.hub == s.hub
  {
  }

  lemma DeletionActs<R, C>(s: System<R, C>, id: string)
    requires id in s.stores
    ensures Step(s, DeleteDocument(id)) == s.(stores := s.stores[id := s.stores[id].(doc := None)])
  {
  }

  lemma GoneStaysGone<R, C>(s: System<R, C>, e: Event<R, C>, id: string)
    requires id in s.stores && s.stores[id].doc.None?
    ensures var after := Step(s, e); id in after.stores && after.stores[id].doc.None? && after.stores[id].history == s.stores[id].history
  {
    hide H.Step;
  }
}
