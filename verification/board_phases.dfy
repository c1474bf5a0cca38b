/**
 Board membership under every interleaving. The middleware reads the caller's board role, the
 service checks access and then the target's row, and only then writes; each of these is a step, and
 between them a request remembers what it read, however stale.
 */
module BoardPhases {
  import opened Common
  import opened Boards
  import Workspaces

  /** A request on a board that exists already; creating one is a single transaction. */
  type BoardRequest = r: Request | !r.CreateBoard? witness DeleteBoard("", "", Workspaces.Member)

  datatype Phase =
    | Arrived(r: BoardRequest)                    // the middleware reads the caller's role next
    | Resolved(r: BoardRequest, role: BoardRole)  // the service checks access and the role next
    | Admitted(r: BoardRequest, role: BoardRole)  // the service reads the target's row next
    | Writing(r: BoardRequest)                    // the statement or transaction that ends it comes next
    | Ended(error: Option<Error>)

  /** `born` are all boards ever created; identifiers are not reused. */
  datatype System = System(rows: Rows, born: set<string>, requests: map<nat, Phase>)

  datatype Event =
    | Create(board: string, private: bool, user: string)
    | Begin(request: nat, r: BoardRequest)
    | Advance(request: nat, fault: bool)

  const INITIAL := System(Rows(map[], map[]), {}, map[])

  function Next(rows: Rows, p: Phase): (Rows, Phase) {
    match p
    case Arrived(r) =>
      (rows, if r.board !in rows.private then Ended(Some(NotFound))
             else Resolved(r, ResolveBoardRole(rows, r.board, r.user, r.rank)))
    case Resolved(r, role) =>
      var access := CheckAccess(rows, r.board, r.user, r.rank);
      (rows, if access.Some? then Ended(access)
             else if Guard(r, role).Some? then Ended(Guard(r, role))
             else Admitted(r, role))
    case Admitted(r, role) =>
      (rows, if Screen(rows, r, role).Some? then Ended(Screen(rows, r, role)) else Writing(r))
    case Writing(r) =>
      var (after, error) := Write(rows, r);
      (after, Ended(error))
    case Ended(_) => (rows, p)
  }

  function Failed(p: Phase): Phase {
    if p.Ended? then p else Ended(Some(Unavailable))
  }

  predicate Enabled(s: System, e: Event) {
    match e
    case Create(board, _, _) => board !in s.born
    case Begin(request, _) => request !in s.requests
    case Advance(request, _) => request in s.requests
  }

  /** An event that is not enabled does not happen. */
  function Step(s: System, e: Event): System {
    if !Enabled(s, e) then s else
    match e
    case Create(board, private, user) =>
      s.(rows := Write(s.rows, CreateBoard(board, private, user)).0, born := s.born + {board})
    case Begin(request, r) => s.(requests := s.requests[request := Arrived(r)])
    case Advance(request, fault) =>
      if fault then s.(requests := s.requests[request := Failed(s.requests[request])])
      else
        var (rows, p) := Next(s.rows, s.requests[request]);
        s.(rows := rows, requests := s.requests[request := p])
  }

  function Exec(events: seq<Event>): System {
    if events == [] then INITIAL else Step(Exec(events[..|events| - 1]), events[|events| - 1])
  }

  // ---------- when every board keeps one owner ----------

  /** The step is a write that breaks its board. */
  predicate Clashes(s: System, e: Event) {
    Enabled(s, e) && e.Advance? && !e.fault && s.requests[e.request].Writing? && Breaks(s.rows, s.requests[e.request].r)
  }

  lemma StepKeepsOwnersIff(s: System, e: Event)
    requires AllOwned(s.rows)
    ensures AllOwned(Step(s, e).rows) <==> !Clashes(s, e)
  {
    hide AllOwned, Write, Breaks, Guard, Screen;
    if Enabled(s, e) {
      match e
      case Create(board, private, user) =>
        WriteKeepsOwnersIff(s.rows, CreateBoard(board, private, user));
        CreatingBreaksNothing(s.rows, CreateBoard(board, private, user));
      case Advance(request, fault) =>
        if !fault && s.requests[request].Writing? {
          WriteKeepsOwnersIff(s.rows, s.requests[request].r);
        }
      case Begin(_, _) =>
    }
  }

  /** In every state of the run every board has exactly one owner row. */
  ghost predicate OwnedThroughout(events: seq<Event>) {
    forall k | 0 <= k <= |events| :: AllOwned(Exec(events[..k]).rows)
  }

  /** No step of the run clashes. */
  ghost predicate NeverClashes(events: seq<Event>) {
    forall k | 0 <= k < |events| :: !Clashes(Exec(events[..k]), events[k])
  }

  lemma OwnedSnoc(front: seq<Event>, e: Event)
    ensures OwnedThroughout(front + [e]) <==> OwnedThroughout(front) && AllOwned(Exec(front + [e]).rows)
  {
    hide Exec, AllOwned;
    var events := front + [e];
    assert forall k | 0 <= k <= |front| :: events[..k] == front[..k];
    assert events[..|events|] == events;
  }

  lemma NeverClashesSnoc(front: seq<Event>, e: Event)
    ensures NeverClashes(front + [e]) <==> NeverClashes(front) && !Clashes(Exec(front), e)
  {
    hide Exec, Clashes;
    var events := front + [e];
    assert forall k | 0 <= k < |front| :: events[..k] == front[..k];
    assert events[..|front|] == front;
  }

  lemma LastIsOwned(events: seq<Event>)
    requires OwnedThroughout(events)
    ensures AllOwned(Exec(events).rows)
  {
    assert events[..|events|] == events;
  }

  /** Over every interleaving, every board has exactly one owner throughout if and only if no write breaks its board. */
  lemma {:induction false} RunKeepsOwnersIff(events: seq<Event>)
    ensures OwnedThroughout(events) <==> NeverClashes(events)
  {
    hide Step, Clashes, AllOwned;
    if events == [] {
      InitialOk();
    } else {
      var front, e := events[..|events| - 1], events[|events| - 1];
      assert events == front + [e];
      hide OwnedThroughout, NeverClashes;
      RunKeepsOwnersIff(front);
      OwnedSnoc(front, e);
      NeverClashesSnoc(front, e);
      if OwnedThroughout(front) {
        LastIsOwned(front);
        StepKeepsOwnersIff(Exec(front), e);
      }
    }
  }

  lemma InitialOk()
    ensures AllOwned(INITIAL.rows) && SystemOk(INITIAL)
  {
  }

  // ---------- transfers that meet nobody ----------

  /** The request will hand the board on. */
  predicate Hands(p: Phase) {
    p.Writing? && p.r.TransferOwnership?
  }

  /** What the request has read would be wrong once the board belongs to `to`. */
  predicate Relies(p: Phase, board: string, to: string) {
    && !p.Arrived? && !p.Ended? && p.r.board == board
    && match p.r
       case TransferOwnership(_, _, _, _) => p.Writing? || p.role.Owner?
       case RemoveMember(_, _, _, target) => p.Writing? && target == to
       case ChangeRole(_, _, _, target, _) => p.Writing? && target == to
       case _ => false
  }

  /** No transfer is about to run while another request relies on the owner it replaces. */
  ghost predicate Calm(s: System) {
    forall a, b | a in s.requests && b in s.requests && a != b && Hands(s.requests[a]) ::
      !Relies(s.requests[b], s.requests[a].r.board, s.requests[a].r.target)
  }

  /** What a request still knows, as long as its board exists. */
  ghost predicate StillTrue(rows: Rows, p: Phase) {
    match p
    case Resolved(r, role) => r.TransferOwnership? && role.Owner? ==> IsOwnerIfAny(rows, r.board, r.user)
    case Admitted(r, role) =>
      r.TransferOwnership? ==> role.Owner? && r.user != r.target && IsOwnerIfAny(rows, r.board, r.user)
    case Writing(r) =>
      && (r.TransferOwnership? ==> r.user != r.target && IsOwnerIfAny(rows, r.board, r.user))
      && (r.RemoveMember? || r.ChangeRole? ==> IsNotOwner(rows, r.board, r.target))
    case _ => true
  }

  predicate IsOwnerIfAny(rows: Rows, board: string, user: string) {
    board in rows.private ==> RoleOf(rows, board, user) == Some(Owner)
  }

  predicate IsNotOwner(rows: Rows, board: string, user: string) {
    board in rows.private ==> RoleOf(rows, board, user) != Some(Owner)
  }

  /** Every request past its first read is on a board that was created. */
  predicate OnBorn(born: set<string>, p: Phase) {
    p.Arrived? || p.Ended? || p.r.board in born
  }

  ghost predicate SystemOk(s: System) {
    && AllOwned(s.rows)
    && s.rows.private.Keys <= s.born
    && forall r | r in s.requests :: StillTrue(s.rows, s.requests[r]) && OnBorn(s.born, s.requests[r])
  }

  lemma NextKeepsTrue(rows: Rows, p: Phase)
    requires AllOwned(rows) && StillTrue(rows, p)
    ensures StillTrue(Next(rows, p).0, Next(rows, p).1)
    ensures p.Writing? ==> !Breaks(rows, p.r)
  {
  }

  /** A write leaves alone what another request has read, unless it hands on the owner that one relies on. */
  lemma WriteKeepsOthers(rows: Rows, r: BoardRequest, other: Phase)
    requires AllOwned(rows) && StillTrue(rows, Writing(r)) && StillTrue(rows, other)
    requires r.TransferOwnership? ==> !Relies(other, r.board, r.target)
    ensures StillTrue(Write(rows, r).0, other)
  {
  }

  /** A new board is nobody's yet. */
  lemma CreateKeepsOthers(rows: Rows, board: string, private: bool, user: string, other: Phase, born: set<string>)
    requires StillTrue(rows, other) && OnBorn(born, other) && board !in born
    ensures StillTrue(Write(rows, CreateBoard(board, private, user)).0, other)
  {
  }

  lemma NextKeepsBorn(rows: Rows, born: set<string>, p: Phase)
    requires OnBorn(born, p) && rows.private.Keys <= born
    ensures OnBorn(born, Next(rows, p).1) && Next(rows, p).0.private.Keys <= born
  {
  }

  lemma StepKeepsOk(s: System, e: Event)
    requires SystemOk(s) && Calm(s)
    ensures SystemOk(Step(s, e))
  {
    hide AllOwned, StillTrue, OnBorn, Next, Write, Breaks;
    if Enabled(s, e) {
      match e
      case Create(board, private, user) => CreateStepKeepsOk(s, board, private, user);
      case Begin(_, r) => NothingRead(s.rows, s.born, Arrived(r));
      case Advance(request, fault) =>
        if fault {
          NothingRead(s.rows, s.born, Failed(s.requests[request]));
        } else {
          AdvanceKeepsOk(s, request);
        }
    }
  }

  lemma NothingRead(rows: Rows, born: set<string>, p: Phase)
    requires p.Arrived? || p.Ended?
    ensures StillTrue(rows, p) && OnBorn(born, p)
  {
  }

  lemma CreateStepKeepsOk(s: System, board: string, private: bool, user: string)
    requires SystemOk(s) && board !in s.born
    ensures SystemOk(Step(s, Create(board, private, user)))
  {
    hide AllOwned, StillTrue, Breaks;
    var r := CreateBoard(board, private, user);
    WriteKeepsOwnersIff(s.rows, r);
    CreatingBreaksNothing(s.rows, r);
    forall other | other in s.requests ensures StillTrue(Write(s.rows, r).0, s.requests[other]) {
      CreateKeepsOthers(s.rows, board, private, user, s.requests[other], s.born);
    }
  }

  lemma AdvanceKeepsOk(s: System, request: nat)
    requires SystemOk(s) && Calm(s) && request in s.requests
    ensures SystemOk(Step(s, Advance(request, false)))
  {
    var p := s.requests[request];
    NextKeepsTrue(s.rows, p);
    NextKeepsBorn(s.rows, s.born, p);
    StepKeepsOwnersIff(s, Advance(request, false));
    hide AllOwned, StillTrue, OnBorn, Write, Breaks, Relies;
    var after := Next(s.rows, p).0;
    forall other | other in s.requests && other != request ensures StillTrue(after, s.requests[other]) {
      if p.Writing? {
        WriteKeepsOthers(s.rows, p.r, s.requests[other]);
      }
    }
  }

  /**
   Over every interleaving in which no transfer is about to run while a request relies on the owner it
   replaces, every board keeps one owner.
   */
  lemma {:induction false} OwnersWithoutClash(events: seq<Event>)
    requires forall k | 0 <= k < |events| :: Calm(Exec(events[..k]))
    ensures SystemOk(Exec(events)) && AllOwned(Exec(events).rows)
  {
    hide Step, SystemOk, Calm, AllOwned;
    if events == [] {
      InitialOk();
    } else {
      var front := events[..|events| - 1];
      assert forall k | 0 <= k < |front| :: front[..k] == events[..k];
      OwnersWithoutClash(front);
      StepKeepsOk(Exec(front), events[|events| - 1]);
    }
    assert AllOwned(Exec(events).rows) by { OkIsOwned(Exec(events)); }
  }

  lemma OkIsOwned(s: System)
    requires SystemOk(s)
    ensures AllOwned(s.rows)
  {
  }

  // ---------- transfers that do ----------

  /** The first write hands the board on, and the second one was checked against the owner before. */
  predicate Meets(rows: Rows, first: BoardRequest, second: BoardRequest) {
    && first.TransferOwnership? && first.board in rows.private && first.board == second.board
    && RoleOf(rows, first.board, first.target).Some?
    && match second
       case RemoveMember(_, _, _, target) => target == first.target
       case ChangeRole(_, _, _, target, _) => target == first.target
       case TransferOwnership(board, _, _, target) => target != first.target && RoleOf(rows, board, target).Some?
       case _ => false
  }

  /**
   Two requests past their checks can both write with every board keeping one owner if and only if
   they do not meet like that.
   */
  lemma BothWriteIff(rows: Rows, first: BoardRequest, second: BoardRequest)
    requires AllOwned(rows) && StillTrue(rows, Writing(first)) && StillTrue(rows, Writing(second))
    ensures AllOwned(Write(rows, first).0)
    ensures AllOwned(Write(Write(rows, first).0, second).0) <==> !Meets(rows, first, second)
  {
    NextKeepsTrue(rows, Writing(first));
    WriteKeepsOwnersIff(rows, first);
    WriteKeepsOwnersIff(Write(rows, first).0, second);
    BreaksAfterIff(rows, first, second);
  }

  lemma BreaksAfterIff(rows: Rows, first: BoardRequest, second: BoardRequest)
    requires AllOwned(rows) && StillTrue(rows, Writing(first)) && StillTrue(rows, Writing(second))
    ensures Breaks(Write(rows, first).0, second) <==> Meets(rows, first, second)
  {
  }

  /** A removal or a change of role that read its target before a transfer to it leaves the board without any owner. */
  lemma StaleWriteLeavesNone(rows: Rows, transfer: BoardRequest, stale: BoardRequest)
    requires AllOwned(rows) && StillTrue(rows, Writing(transfer)) && StillTrue(rows, Writing(stale))
    requires transfer.TransferOwnership? && Meets(rows, transfer, stale)
    requires stale.RemoveMember? || stale.ChangeRole?
    ensures forall u :: RoleOf(Write(Write(rows, transfer).0, stale).0, transfer.board, u) != Some(Owner)
  {
    var owner :| IsOnlyOwner(rows, transfer.board, owner);
    assert owner == transfer.user;
    forall u ensures RoleOf(Write(Write(rows, transfer).0, stale).0, transfer.board, u) != Some(Owner) {
      assert u != owner ==> RoleOf(rows, transfer.board, u) != Some(Owner);
    }
  }

  // ---------- requests run alone ----------

  /** The steps of one request with nothing in between. */
  function RunAlone(s: System, request: nat, r: BoardRequest): System {
    var begun := Step(s, Begin(request, r));
    var go := Advance(request, false);
    Step(Step(Step(Step(begun, go), go), go), go)
  }

  /** Then it does what the request as one step does. */
  lemma Uninterrupted(s: System, request: nat, r: BoardRequest)
    requires request !in s.requests
    ensures var after := RunAlone(s, request, r);
            && request in after.requests && after.requests[request].Ended?
            && (after.rows, after.requests[request].error) == Serve(s.rows, r)
  {
    hide Guard, Screen, Write, CheckAccess, ResolveBoardRole;
    if r.board !in s.rows.private {
      AccessNeedsBoard(s.rows, r);
    }
  }

  lemma AccessNeedsBoard(rows: Rows, r: BoardRequest)
    requires r.board !in rows.private
    ensures CheckAccess(rows, r.board, r.user, r.rank) == Some(NotFound)
  {
  }

  /** A failed step writes nothing and ends its request; a step touches no other request. */
  lemma AdvanceEffect(s: System, request: nat, fault: bool)
    requires request in s.requests
    ensures var after := Step(s, Advance(request, fault));
            && after.requests.Keys == s.requests.Keys && after.born == s.born
            && (forall other | other in s.requests && other != request :: after.requests[other] == s.requests[other])
            && (fault ==> after.rows == s.rows && after.requests[request].Ended?)
            && (fault && !s.requests[request].Ended? ==> after.requests[request].error == Some(Unavailable))
            && (!fault ==> (after.rows, after.requests[request]) == Next(s.rows, s.requests[request]))
  {
  }

  /** A new board adds its owner's row and leaves all requests where they are. */
  lemma CreateActs(s: System, board: string, private: bool, user: string)
    requires board !in s.born && s.rows.private.Keys <= s.born
    ensures var after := Step(s, Create(board, private, user));
            && after.rows.private == s.rows.private[board := private]
            && after.rows.members == s.rows.members[(board, user) := Owner]
            && after.born == s.born + {board} && after.requests == s.requests
  {
  }
}
