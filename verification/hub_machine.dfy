/**
 The hub's table of rooms under every interleaving. A step is one lock section of
 GetOrCreateDocRoom or watchDocRoom, or one room's `Run` returning. The board table has the same
 sections, so `R` is either kind of room.
 */
module HubMachine {

  /** A call of GetOrCreate: it missed under the read lock, or has its room. */
  datatype Call<R> = Missed(id: string) | Got(id: string, room: R)

  datatype Room = Room(id: string, running: bool)

  /** `rooms` is the table; `all` every room ever created, `watching` those whose watcher has not run yet. */
  datatype Hub<R> = Hub(rooms: map<string, R>, all: map<R, Room>, watching: set<R>, calls: map<nat, Call<R>>)

  datatype Event<R> =
    | ReadCheck(call: nat, id: string)     // the read-locked fast path
    | CreateSection(call: nat, made: R)   // the write-locked double check and create
    | RunReturns(room: R)                  // a room's loop ended and closed `done`
    | WatchSection(room: R)                // the watcher's write-locked removal

  function NewHub<R(==)>(): Hub<R> {
    Hub(map[], map[], {}, map[])
  }

  predicate Enabled<R(==)>(h: Hub<R>, e: Event<R>) {
    match e
    case ReadCheck(call, _) => call !in h.calls
    case CreateSection(call, made) => call in h.calls && h.calls[call].Missed? && made !in h.all
    case RunReturns(room) => room in h.all && h.all[room].running
    case WatchSection(room) => room in h.watching && room in h.all && !h.all[room].running
  }

  /** The entry a watcher finds is its own room. */
  predicate FindsOwn<R(==)>(h: Hub<R>, room: R)
    requires room in h.all
  {
    h.all[room].id in h.rooms && h.rooms[h.all[room].id] == room
  }

  /** The double check: `made` is used only when the table still has no room of the id. */
  function Created<R(==)>(h: Hub<R>, call: nat, made: R): Hub<R>
    requires call in h.calls && h.calls[call].Missed?
  {
    var id := h.calls[call].id;
    if id in h.rooms then h.(calls := h.calls[call := Got(id, h.rooms[id])])
    else h.(rooms := h.rooms[id := made], all := h.all[made := Room(id, true)],
            watching := h.watching + {made}, calls := h.calls[call := Got(id, made)])
  }

  /** An event that is not enabled does not happen. */
  function Step<R(==)>(h: Hub<R>, e: Event<R>): Hub<R> {
    if !Enabled(h, e) then h else
    match e
    case ReadCheck(call, id) =>
      h.(calls := h.calls[call := if id in h.rooms then Got(id, h.rooms[id]) else Missed(id)])
    case CreateSection(call, made) =>
      Created(h, call, made)
    case RunReturns(room) =>
      h.(all := h.all[room := h.all[room].(running := false)])
    case WatchSection(room) =>
      h.(rooms := if FindsOwn(h, room) then h.rooms - {h.all[room].id} else h.rooms,
         watching := h.watching - {room})
  }

  function Exec<R(==)>(events: seq<Event<R>>): Hub<R> {
    if events == [] then NewHub() else Step(Exec(events[..|events| - 1]), events[|events| - 1])
  }

  /**
   The table and the watchers agree: a room waits for its watcher exactly while it is in the
   table under its own id, and a running room always does.
   */
  ghost predicate HubOk<R>(h: Hub<R>) {
    && (forall r | r in h.all :: r in h.watching <==> FindsOwn(h, r))
    && (forall r | r in h.all :: h.all[r].running ==> r in h.watching)
    && (forall id | id in h.rooms :: h.rooms[id] in h.all && h.all[h.rooms[id]].id == id)
    && (forall call | call in h.calls && h.calls[call].Got? ::
          h.calls[call].room in h.all && h.all[h.calls[call].room].id == h.calls[call].id)
  }

  lemma StepKeepsHub<R>(h: Hub<R>, e: Event<R>)
    requires HubOk(h)
    ensures HubOk(Step(h, e))
  {
  }

  lemma {:induction false} RunKeepsHub<R>(events: seq<Event<R>>)
    ensures HubOk(Exec(events))
  {
    if events != [] {
      RunKeepsHub(events[..|events| - 1]);
      StepKeepsHub(Exec(events[..|events| - 1]), events[|events| - 1]);
    }
  }

  /** Under every interleaving a running room is in the table under its id, so no two of them share one. */
  lemma AtMostOneRunning<R>(events: seq<Event<R>>, a: R, b: R)
    requires var h := Exec(events); a in h.all && b in h.all && h.all[a].running && h.all[b].running
    ensures FindsOwn(Exec(events), a)
    ensures Exec(events).all[a].id == Exec(events).all[b].id ==> a == b
  {
    RunKeepsHub(events);
  }

  /**
   The watcher's comparison never fails: until its section has run the entry is its own room,
   so no newer room is ever there to be removed, and what it removes has stopped running.
   */
  lemma WatcherFindsOwnRoom<R>(events: seq<Event<R>>, room: R)
    requires Enabled(Exec(events), WatchSection(room))
    ensures var h := Exec(events);
            && FindsOwn(h, room) && !h.all[room].running
            && Step(h, WatchSection(room)).rooms == h.rooms - {h.all[room].id}
            && forall id | id in h.rooms && h.rooms[id] != room ::
                 id in Step(h, WatchSection(room)).rooms && Step(h, WatchSection(room)).rooms[id] == h.rooms[id]
  {
    RunKeepsHub(events);
  }

  /** A room is created only while no room of its id is running or waiting for its watcher. */
  lemma CreatedOnlyWhenNoneLeft<R>(events: seq<Event<R>>, call: nat, made: R, other: R)
    requires Enabled(Exec(events), CreateSection(call, made))
    requires made in Step(Exec(events), CreateSection(call, made)).all
    requires other in Exec(events).watching && other in Exec(events).all
    ensures Exec(events).all[other].id != Exec(events).calls[call].id
  {
    RunKeepsHub(events);
  }

  /** The id a lock section of GetOrCreate is for. */
  function Asked<R(==)>(h: Hub<R>, e: Event<R>): string
    requires (e.ReadCheck? || e.CreateSection?) && Enabled(h, e)
  {
    if e.ReadCheck? then e.id else h.calls[e.call].id
  }

  /** A room of the id has returned and its watcher has not run yet. */
  ghost predicate Lingers<R>(h: Hub<R>, id: string) {
    exists r | r in h.watching :: r in h.all && h.all[r].id == id && !h.all[r].running
  }

  /**
   The fast path answers when the table has a room of the id, the slow path always, each with a
   room of the id it was asked for. Under either lock that room has already stopped running if and
   only if some room of the id has returned and its watcher has not run yet.
   */
  lemma AnswerHasStoppedIff<R>(events: seq<Event<R>>, e: Event<R>)
    requires (e.ReadCheck? || e.CreateSection?) && Enabled(Exec(events), e)
    ensures var h, after := Exec(events), Step(Exec(events), e);
            var id, answer := Asked(h, e), after.calls[e.call];
            && (answer.Got? <==> e.CreateSection? || id in h.rooms)
            && (answer.Got? ==>
                  && answer.room in after.all && after.all[answer.room].id == id
                  && (!after.all[answer.room].running <==> Lingers(h, id)))
  {
    RunKeepsHub(events);
    var h := Exec(events);
    var id := Asked(h, e);
    if id in h.rooms {
      assert h.rooms[id] in h.watching;
    }
  }

  /** The exit of a room stops that room and nothing else. */
  lemma ExitEffect<R>(h: Hub<R>, room: R)
    requires room in h.all && h.all[room].running
    ensures var after := Step(h, RunReturns(room));
            && after.all == h.all[room := Room(h.all[room].id, false)]
            && after.rooms == h.rooms && after.watching == h.watching && after.calls == h.calls
  {
  }

  /**
   In every run, once a room has returned and its watcher has run, the next call of its id misses and
   its slow path makes a new, running room, which the table then has under the id.
   */
  lemma RoomIsReplaced<R>(events: seq<Event<R>>, room: R, call: nat, made: R)
    requires room in Exec(events).all && Exec(events).all[room].running
    requires call !in Exec(events).calls && made !in Exec(events).all
    ensures var h := Exec(events);
            var gone := Step(Step(h, RunReturns(room)), WatchSection(room));
            var id := h.all[room].id;
            var missed := Step(gone, ReadCheck(call, id));
            var after := Step(missed, CreateSection(call, made));
            && id !in gone.rooms && call in missed.calls && missed.calls[call] == Missed(id)
            && made in after.all && after.all[made] == Room(id, true)
            && id in after.rooms && after.rooms[id] == made && made in after.watching
            && call in after.calls && after.calls[call] == Got(id, made)
  {
    RunKeepsHub(events);
  }
}
