/**
 The event loop of a document room as a state machine. One event is one thing the loop, a
 client's pumps or the database did; the loop's own events stop once `Run` has returned.
 */
module RoomMachine {
  import opened Common
  import opened Channels
  import opened DocumentLog
  import opened RoomLog

  const MSG_SYNC: byte := 0x00
  const MSG_AWARENESS: byte := 0x01

  /** Capacity of the room's `broadcast` and `awareness` channels. */
  const INBOX: nat := 256

  datatype Event<C> =
    | Register(client: C)                    // a new client reached the loop
    | Unregister(client: C)                  // a client's ReadPump ended
    | TakeBroadcast(fault: bool)             // the loop took the oldest sync message; `fault`: the database failed
    | TakeAwareness                          // the loop took the oldest awareness message
    | Shutdown                               // the loop saw `shutdown` closed
    | Receive(client: C, message: Bytes)     // a ReadPump read one message
    | Drain(client: C)                       // a WritePump took one message
    | Compaction(snapshot: Bytes, clock: nat, fault: bool)  // UpdateSnapshot ran
    | Deletion                               // the document was deleted with its card

  /**
   The room's two inboxes, with their history: `read` is what each ReadPump read, `forwarded`
   and `taken` what entered and left the broadcast channel, `failures` how many persists failed.
   */
  datatype Inbox<C> = Inbox(
    broadcast: seq<RoomMessage<C>>,
    awareness: seq<RoomMessage<C>>,
    read: map<C, seq<Bytes>>,
    forwarded: seq<RoomMessage<C>>,
    taken: seq<RoomMessage<C>>,
    failures: nat)

  /** `store` is the document in the database, `log` the rows this room persisted after the first `start` ones. */
  datatype Room<C> = Room(
    crowd: Crowd<C, Message>,
    inbox: Inbox<C>,
    store: Tracked,
    start: nat,
    log: seq<Row<C>>,
    done: bool)

  function NewRoom<C(==)>(store: Tracked): Room<C> {
    Room(NobodyYet(), Inbox([], [], map[], [], [], 0), store, |store.history|, [], false)
  }

  predicate IsSync(message: Bytes) {
    message != [] && message[0] == MSG_SYNC
  }

  predicate IsAwareness(message: Bytes) {
    message != [] && message[0] == MSG_AWARENESS
  }

  /** The sync messages of a ReadPump, in the order it read them. */
  function SyncOf(messages: seq<Bytes>): seq<Bytes> {
    if messages == [] then []
    else
      var m := messages[|messages| - 1];
      SyncOf(messages[..|messages| - 1]) + (if IsSync(m) then [m] else [])
  }

  /** The newcomer gets SYNC_STEP_1 or is dropped; either way the others are asked for their awareness. */
  function Greet<C(==)>(crowd: Crowd<C, Message>, client: C, at: nat): Crowd<C, Message> {
    var greeted := Deliver(Join(crowd, client, at), {client}, SyncInit, true, at);
    Deliver(greeted, greeted.clients - {client}, AwarenessQuery, false, at)
  }

  /** The client leaves and the others remove its cursor. */
  function SayGoodbye<C(==)>(crowd: Crowd<C, Message>, client: C, at: nat): Crowd<C, Message> {
    var left := CloseAll(crowd, {client}, at);
    Deliver(left, left.clients, CursorsGone, false, at)
  }

  function OnRegister<C(==)>(r: Room<C>, client: C): Room<C> {
    r.(crowd := Greet(r.crowd, client, |r.log|),
       inbox := r.inbox.(read := r.inbox.read[client := []]))
  }

  function OnUnregister<C(==)>(r: Room<C>, client: C): Room<C> {
    if client !in r.crowd.clients then r
    else
      var left := SayGoodbye(r.crowd, client, |r.log|);
      r.(crowd := left, done := left.clients == {})
  }

  function Took<C>(inbox: Inbox<C>, failed: bool): Inbox<C>
    requires inbox.broadcast != []
  {
    inbox.(broadcast := inbox.broadcast[1..],
           taken := inbox.taken + [inbox.broadcast[0]],
           failures := inbox.failures + if failed then 1 else 0)
  }

  function OnBroadcast<C(==)>(r: Room<C>, fault: bool): Room<C>
    requires r.inbox.broadcast != []
  {
    var msg := r.inbox.broadcast[0];
    match Increment(r.store.doc, msg.data, fault)
    case Err(_) => r.(inbox := Took(r.inbox, true))
    case Ok((_, clock)) =>
      // persisted first, then sent to everyone but the sender; a full client is dropped
      r.(inbox := Took(r.inbox, false),
         store := Append(r.store, msg.data, fault),
         log := r.log + [Row(clock, msg.sender, msg.data)],
         crowd := Deliver(r.crowd, r.crowd.clients - {msg.sender}, Update(clock, msg.data), true, |r.log|))
  }

  function OnAwareness<C(==)>(r: Room<C>): Room<C>
    requires r.inbox.awareness != []
  {
    var msg := r.inbox.awareness[0];
    r.(inbox := r.inbox.(awareness := r.inbox.awareness[1..]),
       crowd := Deliver(r.crowd, r.crowd.clients - {msg.sender}, Awareness(msg.data), false, |r.log|))
  }

  function OnShutdown<C(==)>(r: Room<C>): Room<C> {
    r.(crowd := CloseAll(r.crowd, r.crowd.clients, |r.log|), done := true)
  }

  /** The dispatch of a ReadPump on the first byte. */
  function Received<C(==)>(inbox: Inbox<C>, client: C, message: Bytes): Inbox<C> {
    var earlier := if client in inbox.read then inbox.read[client] else [];
    var seen := inbox.(read := inbox.read[client := earlier + [message]]);
    var msg := RoomMessage(client, message);
    if IsSync(message) then seen.(broadcast := inbox.broadcast + [msg], forwarded := inbox.forwarded + [msg])
    else if IsAwareness(message) then seen.(awareness := inbox.awareness + [msg])
    else seen
  }

  /**
   When an event can happen. A client registers once and runs its pumps
   afterwards; a ReadPump waits while the channel is full.
   */
  predicate Enabled<C(==)>(r: Room<C>, e: Event<C>) {
    match e
    case Register(c) => !r.done && c !in r.crowd.chans
    case Unregister(c) => !r.done && c in r.crowd.chans
    case TakeBroadcast(_) => !r.done && r.inbox.broadcast != []
    case TakeAwareness => !r.done && r.inbox.awareness != []
    case Shutdown => !r.done
    case Receive(c, m) =>
      && c in r.crowd.chans
      && (IsSync(m) ==> |r.inbox.broadcast| < INBOX)
      && (IsAwareness(m) ==> |r.inbox.awareness| < INBOX)
    case Drain(c) => c in r.crowd.chans
    case Compaction(_, clock, _) => InRange(r.store, clock)
    case Deletion => true
  }

  /** An event that is not enabled does not happen. */
  function Step<C(==)>(r: Room<C>, e: Event<C>): Room<C> {
    if !Enabled(r, e) then r else
    match e
    case Register(c) => OnRegister(r, c)
    case Unregister(c) => OnUnregister(r, c)
    case TakeBroadcast(fault) => OnBroadcast(r, fault)
    case TakeAwareness => OnAwareness(r)
    case Shutdown => OnShutdown(r)
    case Receive(c, m) => r.(inbox := Received(r.inbox, c, m))
    case Drain(c) => r.(crowd := DrainOne(r.crowd, c))
    case Compaction(snapshot, clock, fault) => r.(store := CompactTracked(r.store, snapshot, clock, fault))
    case Deletion => r.(store := r.store.(doc := None))
  }

  function Exec<C(==)>(r: Room<C>, events: seq<Event<C>>): Room<C> {
    if events == [] then r
    else Step(Exec(r, events[..|events| - 1]), events[|events| - 1])
  }
}
