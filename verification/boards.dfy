/**
 Board membership: the statements on `board_members`, the service guards in front of them, and
 what keeps every board with exactly one owner.
 */
module Boards {
  import opened Common
  import Workspaces

  datatype BoardRole = Owner | Admin | Editor

  /** The roles a request may carry. */
  type Grant = r: BoardRole | r != Owner witness Editor

  /** Which boards are private, and the `board_members` rows. */
  datatype Rows = Rows(private: map<string, bool>, members: map<(string, string), BoardRole>)

  datatype Error =
    | NotFound | AccessDenied | Forbidden | UserNotFound | AlreadyBoardMember
    | CannotRemoveBoardOwner | TargetNotBoardMember | Unavailable

  function RoleOf(rows: Rows, board: string, user: string): Option<BoardRole> {
    if (board, user) in rows.members then Some(rows.members[(board, user)]) else None
  }

  // ---------- single statements and transactions ----------

  function Create(rows: Rows, board: string, private: bool, creator: string): Rows {
    Rows(rows.private[board := private], rows.members[(board, creator) := Owner])
  }

  /** The foreign key rejects a missing board; ON CONFLICT DO NOTHING keeps an existing row. */
  function Add(rows: Rows, board: string, user: string, role: Grant): Result<Rows, Error> {
    if (board, user) in rows.members then Ok(rows)
    else if board !in rows.private then Err(Unavailable)
    else Ok(rows.(members := rows.members[(board, user) := role]))
  }

  function Update(rows: Rows, board: string, user: string, role: Grant): Result<Rows, Error> {
    if (board, user) !in rows.members then Err(NotFound)
    else Ok(rows.(members := rows.members[(board, user) := role]))
  }

  function Remove(rows: Rows, board: string, user: string): Result<Rows, Error> {
    if (board, user) !in rows.members then Err(NotFound)
    else Ok(rows.(members := rows.members - {(board, user)}))
  }

  /** The transaction reads both rows but checks neither role. */
  function Transfer(rows: Rows, board: string, from: string, to: string): Result<Rows, Error> {
    if (board, from) !in rows.members || (board, to) !in rows.members then Err(NotFound)
    else Ok(rows.(members := rows.members[(board, from) := Admin][(board, to) := Owner]))
  }

  /** Cascades to the member rows. */
  function Delete(rows: Rows, board: string): Result<Rows, Error> {
    if board !in rows.private then Err(NotFound)
    else Ok(Rows(rows.private - {board}, map k | k in rows.members && k.0 != board :: rows.members[k]))
  }

  class BoardRepository {
    var private: map<string, bool>
    var members: map<(string, string), BoardRole>

    function View(): Rows
      reads this
    {
      Rows(private, members)
    }

    /** `board` is generated by the database. */
    method Insert(board: string, isPrivate: bool, creator: string)
      modifies this
      ensures View() == Create(old(View()), board, isPrivate, creator)
    {
      private := private[board := isPrivate];
      members := members[(board, creator) := Owner];
    }

    method AddBoardMember(board: string, user: string, role: Grant) returns (error: Option<Error>)
      modifies this`members
      ensures (View(), error) == Commit(old(View()), Add(old(View()), board, user, role))
    {
      if (board, user) in members {
        return None;
      }
      if board !in private {
        return Some(Unavailable);
      }
      members := members[(board, user) := role];
      return None;
    }

    method UpdateBoardMemberRole(board: string, user: string, role: Grant) returns (error: Option<Error>)
      modifies this`members
      ensures (View(), error) == Commit(old(View()), Update(old(View()), board, user, role))
    {
      if (board, user) !in members {
        return Some(NotFound);
      }
      members := members[(board, user) := role];
      return None;
    }

    method RemoveBoardMember(board: string, user: string) returns (error: Option<Error>)
      modifies this`members
      ensures (View(), error) == Commit(old(View()), Remove(old(View()), board, user))
    {
      if (board, user) !in members {
        return Some(NotFound);
      }
      members := members - {(board, user)};
      return None;
    }

    method TransferOwnership(board: string, from: string, to: string) returns (error: Option<Error>)
      modifies this`members
      ensures (View(), error) == Commit(old(View()), Transfer(old(View()), board, from, to))
    {
      if (board, from) !in members {
        return Some(NotFound);
      }
      if (board, to) !in members {
        return Some(NotFound);
      }
      members := members[(board, from) := Admin];
      members := members[(board, to) := Owner];
      return None;
    }

    method Drop(board: string) returns (error: Option<Error>)
      modifies this
      ensures (View(), error) == Commit(old(View()), Delete(old(View()), board))
    {
      if board !in private {
        return Some(NotFound);
      }
      private := private - {board};
      members := map k | k in members && k.0 != board :: members[k];
      return None;
    }
  }

  // ---------- the service ----------

  /** The effective role: an explicit owner first, then workspace rank, then the explicit role, then editor. */
  function ResolveBoardRole(rows: Rows, board: string, user: string, rank: Workspaces.Role): BoardRole {
    var explicit := RoleOf(rows, board, user);
    if explicit == Some(Owner) then Owner
    else if !rank.Member? then Admin
    else if explicit.Some? then explicit.value
    else Editor
  }

  function CheckAccess(rows: Rows, board: string, user: string, rank: Workspaces.Role): Option<Error> {
    if board !in rows.private then Some(NotFound)
    else if !rows.private[board] || !rank.Member? || (board, user) in rows.members then None
    else Some(AccessDenied)
  }

  /** A request by `user`, whose workspace role is `rank`. */
  datatype Request =
    | CreateBoard(board: string, private: bool, user: string)
    | AddMember(board: string, user: string, rank: Workspaces.Role, target: string, wanted: Option<Grant>, inWorkspace: bool)
    | RemoveMember(board: string, user: string, rank: Workspaces.Role, target: string)
    | ChangeRole(board: string, user: string, rank: Workspaces.Role, target: string, role: Grant)
    | TransferOwnership(board: string, user: string, rank: Workspaces.Role, target: string)
    | DeleteBoard(board: string, user: string, rank: Workspaces.Role)

  function Commit(rows: Rows, outcome: Result<Rows, Error>): (Rows, Option<Error>) {
    match outcome
    case Ok(after) => (after, None)
    case Err(e) => (rows, Some(e))
  }

  /** Without a wanted role the new member becomes an editor. */
  function Granted(wanted: Option<Grant>): Grant {
    if wanted.Some? then wanted.value else Editor
  }

  /** The guards that need only the roles already read. */
  function Guard(r: Request, role: BoardRole): Option<Error> {
    match r
    case AddMember(_, _, _, _, wanted, inWorkspace) =>
      if role.Editor? || (Granted(wanted).Admin? && !role.Owner?) then Some(Forbidden)
      else if !inWorkspace then Some(UserNotFound)
      else None
    case RemoveMember(_, _, _, _) => if role.Editor? then Some(Forbidden) else None
    case ChangeRole(_, _, _, _, _) => if !role.Owner? then Some(Forbidden) else None
    case TransferOwnership(_, user, _, target) => if !role.Owner? || target == user then Some(Forbidden) else None
    case DeleteBoard(_, _, rank) => if !role.Owner? && !rank.Owner? then Some(Forbidden) else None
    case CreateBoard(_, _, _) => None
  }

  /** The guards on the target's row. */
  function Screen(rows: Rows, r: Request, role: BoardRole): Option<Error> {
    match r
    case AddMember(board, _, _, target, _, _) =>
      if RoleOf(rows, board, target).Some? then Some(AlreadyBoardMember) else None
    case RemoveMember(board, _, _, target) =>
      (match RoleOf(rows, board, target)
       case None => Some(NotFound)
       case Some(Owner) => Some(CannotRemoveBoardOwner)
       case Some(found) => if found.Admin? && !role.Owner? then Some(Forbidden) else None)
    case ChangeRole(board, _, _, target, _) =>
      (match RoleOf(rows, board, target)
       case None => Some(NotFound)
       case Some(Owner) => Some(CannotRemoveBoardOwner)
       case Some(_) => None)
    case _ => None
  }

  /** The statement or transaction that ends a request. */
  function Write(rows: Rows, r: Request): (Rows, Option<Error>) {
    match r
    case AddMember(board, _, _, target, wanted, _) => Commit(rows, Add(rows, board, target, Granted(wanted)))
    case RemoveMember(board, _, _, target) => Commit(rows, Remove(rows, board, target))
    case ChangeRole(board, _, _, target, grant) => Commit(rows, Update(rows, board, target, grant))
    case TransferOwnership(board, user, _, target) =>
      (match Transfer(rows, board, user, target)
       case Ok(after) => (after, None)
       case Err(_) => (rows, Some(TargetNotBoardMember)))
    case DeleteBoard(board, _, _) => Commit(rows, Delete(rows, board))
    case CreateBoard(board, private, user) =>
      if board in rows.private then (rows, None) else (Create(rows, board, private, user), None)
  }

  /** One request, run alone, with the caller's board role resolved from the same rows. */
  function Serve(rows: Rows, r: Request): (Rows, Option<Error>) {
    if r.CreateBoard? then Write(rows, r)
    else
      var access := CheckAccess(rows, r.board, r.user, r.rank);
      var role := ResolveBoardRole(rows, r.board, r.user, r.rank);
      if access.Some? then (rows, access)
      else if Guard(r, role).Some? then (rows, Guard(r, role))
      else if Screen(rows, r, role).Some? then (rows, Screen(rows, r, role))
      else Write(rows, r)
  }

  /** The requests that change membership, step by step; `role` is the caller's resolved board role. */
  class BoardService {
    const boards: BoardRepository

    constructor (boards: BoardRepository)
      ensures this.boards == boards
    {
      this.boards := boards;
    }

    method AddMember(board: string, user: string, rank: Workspaces.Role, target: string, wanted: Option<Grant>, inWorkspace: bool)
      returns (error: Option<Error>)
      modifies boards`members
      ensures (boards.View(), error) == Serve(old(boards.View()), Request.AddMember(board, user, rank, target, wanted, inWorkspace))
    {
      var role := ResolveBoardRole(boards.View(), board, user, rank);
      error := CheckAccess(boards.View(), board, user, rank);
      if error.Some? {
        return;
      }
      if role.Editor? {
        return Some(Forbidden);
      }
      var grant: Grant := Editor;
      if wanted.Some? {
        grant := wanted.value;
      }
      if grant.Admin? && !role.Owner? {
        return Some(Forbidden);
      }
      if !inWorkspace {
        return Some(UserNotFound);
      }
      if RoleOf(boards.View(), board, target).Some? {
        return Some(AlreadyBoardMember);
      }
      error := boards.AddBoardMember(board, target, grant);
    }

    method RemoveMember(board: string, user: string, rank: Workspaces.Role, target: string) returns (error: Option<Error>)
      modifies boards`members
      ensures (boards.View(), error) == Serve(old(boards.View()), Request.RemoveMember(board, user, rank, target))
    {
      var role := ResolveBoardRole(boards.View(), board, user, rank);
      error := CheckAccess(boards.View(), board, user, rank);
      if error.Some? {
        return;
      }
      if role.Editor? {
        return Some(Forbidden);
      }
      var found := RoleOf(boards.View(), board, target);
      if found.None? {
        return Some(NotFound);
      }
      if found.value.Owner? {
        return Some(CannotRemoveBoardOwner);
      }
      if found.value.Admin? && !role.Owner? {
        return Some(Forbidden);
      }
      error := boards.RemoveBoardMember(board, target);
    }

    method ChangeRole(board: string, user: string, rank: Workspaces.Role, target: string, grant: Grant)
      returns (error: Option<Error>)
      modifies boards`members
      ensures (boards.View(), error) == Serve(old(boards.View()), Request.ChangeRole(board, user, rank, target, grant))
    {
      var role := ResolveBoardRole(boards.View(), board, user, rank);
      error := CheckAccess(boards.View(), board, user, rank);
      if error.Some? {
        return;
      }
      if !role.Owner? {
        return Some(Forbidden);
      }
      var found := RoleOf(boards.View(), board, target);
      if found.None? {
        return Some(NotFound);
      }
      if found.value.Owner? {
        return Some(CannotRemoveBoardOwner);
      }
      error := boards.UpdateBoardMemberRole(board, target, grant);
    }

    method TransferOwnership(board: string, user: string, rank: Workspaces.Role, target: string)
      returns (error: Option<Error>)
      modifies boards`members
      ensures (boards.View(), error) == Serve(old(boards.View()), Request.TransferOwnership(board, user, rank, target))
    {
      var role := ResolveBoardRole(boards.View(), board, user, rank);
      error := CheckAccess(boards.View(), board, user, rank);
      if error.Some? {
        return;
      }
      if !role.Owner? || target == user {
        return Some(Forbidden);
      }
      error := boards.TransferOwnership(board, user, target);
      if error.Some? {
        return Some(TargetNotBoardMember);
      }
    }

    /** `board` is generated by the database. */
    method CreateBoard(board: string, private: bool, user: string)
      requires board !in boards.private
      modifies boards
      ensures (boards.View(), None) == Serve(old(boards.View()), Request.CreateBoard(board, private, user))
    {
      boards.Insert(board, private, user);
    }

    method DeleteBoard(board: string, user: string, rank: Workspaces.Role) returns (error: Option<Error>)
      modifies boards
      ensures (boards.View(), error) == Serve(old(boards.View()), Request.DeleteBoard(board, user, rank))
    {
      var role := ResolveBoardRole(boards.View(), board, user, rank);
      error := CheckAccess(boards.View(), board, user, rank);
      if error.Some? {
        return;
      }
      if !role.Owner? && !rank.Owner? {
        return Some(Forbidden);
      }
      error := boards.Drop(board);
    }
  }

  function ServeAll(requests: seq<Request>): Rows {
    if requests == [] then Rows(map[], map[])
    else Serve(ServeAll(requests[..|requests| - 1]), requests[|requests| - 1]).0
  }

  // ---------- exactly one owner ----------

  ghost predicate IsOnlyOwner(rows: Rows, board: string, user: string) {
    RoleOf(rows, board, user) == Some(Owner)
    && forall k | k in rows.members && k.0 == board && rows.members[k].Owner? :: k.1 == user
  }

  ghost predicate OneOwner(rows: Rows, board: string) {
    exists user :: IsOnlyOwner(rows, board, user)
  }

  /** Every board has exactly one owner row, and no row outlives its board. */
  ghost predicate AllOwned(rows: Rows) {
    && (forall board | board in rows.private :: OneOwner(rows, board))
    && (forall k | k in rows.members :: k.0 in rows.private)
  }

  /** A role update keeps the single owner if and only if it does not hit the owner. */
  lemma UpdateKeepsOneOwnerIff(rows: Rows, board: string, user: string, role: Grant)
    requires OneOwner(rows, board) && (board, user) in rows.members
    ensures OneOwner(Update(rows, board, user, role).value, board) <==> !rows.members[(board, user)].Owner?
  {
    var owner :| IsOnlyOwner(rows, board, owner);
    var after := Update(rows, board, user, role).value;
    if user != owner {
      assert IsOnlyOwner(after, board, owner);
    } else {
      forall u ensures !IsOnlyOwner(after, board, u) {
        assert (board, u) in after.members && after.members[(board, u)].Owner? ==> (board, u) in rows.members;
      }
    }
  }

  lemma RemoveKeepsOneOwnerIff(rows: Rows, board: string, user: string)
    requires OneOwner(rows, board) && (board, user) in rows.members
    ensures OneOwner(Remove(rows, board, user).value, board) <==> !rows.members[(board, user)].Owner?
  {
    var owner :| IsOnlyOwner(rows, board, owner);
    var after := Remove(rows, board, user).value;
    if user != owner {
      assert IsOnlyOwner(after, board, owner);
    } else {
      forall u ensures !IsOnlyOwner(after, board, u) {
        assert (board, u) in after.members && after.members[(board, u)].Owner? ==> (board, u) in rows.members;
      }
    }
  }

  /** The transfer transaction keeps the single owner if and only if one of its two rows is the owner's. */
  lemma TransferKeepsOneOwnerIff(rows: Rows, board: string, from: string, to: string)
    requires OneOwner(rows, board) && (board, from) in rows.members && (board, to) in rows.members
    ensures var after := Transfer(rows, board, from, to).value;
            && RoleOf(after, board, to) == Some(Owner)
            && (OneOwner(after, board) <==> rows.members[(board, from)].Owner? || rows.members[(board, to)].Owner?)
  {
    var owner :| IsOnlyOwner(rows, board, owner);
    var after := Transfer(rows, board, from, to).value;
    if owner == from || owner == to {
      assert IsOnlyOwner(after, board, to);
    } else {
      assert after.members[(board, owner)].Owner? && after.members[(board, to)].Owner?;
      forall u ensures !IsOnlyOwner(after, board, u) {
        assert (board, owner) in after.members && (board, to) in after.members;
      }
    }
  }

  lemma CreateMakesOneOwner(rows: Rows, board: string, private: bool, creator: string)
    requires board !in rows.private && forall k | k in rows.members :: k.0 in rows.private
    ensures OneOwner(Create(rows, board, private, creator), board)
  {
    assert IsOnlyOwner(Create(rows, board, private, creator), board, creator);
  }

  lemma AddKeepsOneOwner(rows: Rows, board: string, user: string, role: Grant)
    requires OneOwner(rows, board)
    ensures OneOwner(Commit(rows, Add(rows, board, user, role)).0, board)
  {
    var owner :| IsOnlyOwner(rows, board, owner);
    assert IsOnlyOwner(Commit(rows, Add(rows, board, user, role)).0, board, owner);
  }

  /** Two transfers, each accepted from the same rows: run one after the other, the second makes a second owner. */
  lemma InterleavedTransfersBreakIt(board: string, rank: Workspaces.Role)
    ensures var rows := Rows(map[board := false], map[(board, "a") := Owner, (board, "b") := Editor, (board, "c") := Editor]);
            var first := Serve(rows, TransferOwnership(board, "a", rank, "b"));
            var second := Serve(rows, TransferOwnership(board, "a", rank, "c"));
            && first.1.None? && second.1.None?
            && Transfer(rows, board, "a", "b") == Ok(first.0) && Transfer(rows, board, "a", "c") == Ok(second.0)
            && OneOwner(rows, board) && OneOwner(first.0, board) && OneOwner(second.0, board)
            && Transfer(first.0, board, "a", "c").Ok? && !OneOwner(Transfer(first.0, board, "a", "c").value, board)
  {
    var rows := Rows(map[board := false], map[(board, "a") := Owner, (board, "b") := Editor, (board, "c") := Editor]);
    assert IsOnlyOwner(rows, board, "a");
    TransferKeepsOneOwnerIff(rows, board, "a", "b");
    TransferKeepsOneOwnerIff(rows, board, "a", "c");
    TransferKeepsOneOwnerIff(Transfer(rows, board, "a", "b").value, board, "a", "c");
  }

  /** What happens on one board leaves the others' owners alone. */
  lemma OtherBoardsKeepOwner(rows: Rows, after: Rows, board: string, other: string)
    requires OneOwner(rows, other) && other != board
    requires forall k: (string, string) | k.0 == other :: k in after.members <==> k in rows.members
    requires forall k | k in rows.members && k.0 == other :: after.members[k] == rows.members[k]
    ensures OneOwner(after, other)
  {
    var owner :| IsOnlyOwner(rows, other, owner);
    assert IsOnlyOwner(after, other, owner);
  }

  /** The write would touch the owner's row without handing it on, or hand on what is not the owner's. */
  predicate Breaks(rows: Rows, r: Request) {
    r.board in rows.private &&
    match r
    case RemoveMember(board, _, _, target) => RoleOf(rows, board, target) == Some(Owner)
    case ChangeRole(board, _, _, target, _) => RoleOf(rows, board, target) == Some(Owner)
    case TransferOwnership(board, user, _, target) =>
      && RoleOf(rows, board, user).Some? && RoleOf(rows, board, target).Some?
      && RoleOf(rows, board, user) != Some(Owner) && RoleOf(rows, board, target) != Some(Owner)
    case _ => false
  }

  /** On its own board, a write keeps the single owner if and only if it does not break it. */
  lemma WriteKeepsOneOwnerIff(rows: Rows, r: Request)
    requires AllOwned(rows)
    ensures r.board in Write(rows, r).0.private ==> (OneOwner(Write(rows, r).0, r.board) <==> !Breaks(rows, r))
    ensures Breaks(rows, r) ==> r.board in Write(rows, r).0.private
  {
    hide IsOnlyOwner, OneOwner;
    match r
    case CreateBoard(board, private, user) =>
      if board !in rows.private {
        CreateMakesOneOwner(rows, board, private, user);
      }
    case AddMember(board, _, _, target, wanted, _) =>
      if board in rows.private {
        AddKeepsOneOwner(rows, board, target, Granted(wanted));
      }
    case RemoveMember(board, _, _, target) =>
      if (board, target) in rows.members {
        RemoveKeepsOneOwnerIff(rows, board, target);
      }
    case ChangeRole(board, _, _, target, role) =>
      if (board, target) in rows.members {
        UpdateKeepsOneOwnerIff(rows, board, target, role);
      }
    case TransferOwnership(board, user, _, target) =>
      if (board, user) in rows.members && (board, target) in rows.members {
        TransferKeepsOneOwnerIff(rows, board, user, target);
      }
    case DeleteBoard(_, _, _) =>
  }

  /** A write keeps every board with exactly one owner if and only if it does not break its own. */
  lemma WriteKeepsOwnersIff(rows: Rows, r: Request)
    requires AllOwned(rows)
    ensures AllOwned(Write(rows, r).0) <==> !Breaks(rows, r)
  {
    hide OneOwner;
    var after := Write(rows, r).0;
    WriteKeepsOneOwnerIff(rows, r);
    forall other | other in after.private && other != r.board ensures OneOwner(after, other) {
      OtherBoardsKeepOwner(rows, after, r.board, other);
    }
    WriteLeavesNoOrphans(rows, r);
  }

  lemma WriteLeavesNoOrphans(rows: Rows, r: Request)
    requires forall k | k in rows.members :: k.0 in rows.private
    ensures forall k | k in Write(rows, r).0.members :: k.0 in Write(rows, r).0.private
  {
  }

  /** The guards of a request run alone let no write through that breaks the board's single owner. */
  lemma GuardsProtect(rows: Rows, r: Request)
    requires !r.CreateBoard?
    requires var role := ResolveBoardRole(rows, r.board, r.user, r.rank);
             Guard(r, role).None? && Screen(rows, r, role).None?
    ensures !Breaks(rows, r)
  {
  }

  /** A request, run alone, keeps every board with exactly one owner. */
  lemma ServeKeepsOwners(rows: Rows, r: Request)
    requires AllOwned(rows)
    ensures AllOwned(Serve(rows, r).0)
  {
    hide AllOwned, Breaks, Write, Guard, Screen;
    WriteKeepsOwnersIff(rows, r);
    if r.CreateBoard? {
      CreatingBreaksNothing(rows, r);
    } else {
      var role := ResolveBoardRole(rows, r.board, r.user, r.rank);
      if Guard(r, role).None? && Screen(rows, r, role).None? {
        GuardsProtect(rows, r);
      }
    }
  }

  lemma CreatingBreaksNothing(rows: Rows, r: Request)
    requires r.CreateBoard?
    ensures !Breaks(rows, r)
  {
  }

  /** Over every serial run, every board has exactly one owner row. */
  lemma {:induction false} OneOwnerOverRuns(requests: seq<Request>)
    ensures AllOwned(ServeAll(requests))
  {
    hide Serve;
    if requests != [] {
      OneOwnerOverRuns(requests[..|requests| - 1]);
      ServeKeepsOwners(ServeAll(requests[..|requests| - 1]), requests[|requests| - 1]);
    }
  }
}
