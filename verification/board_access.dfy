/**
 Who may do what to a board: for every kind of request, exactly when it goes through and which rows
 it leaves, in terms of the rows and the caller's workspace rank alone.
 */
module BoardAccess {
  import opened Common
  import opened Boards
  import W = Workspaces

  /** The board is there, and it is public, or the caller manages the workspace or has a row of its own. */
  predicate MaySee(rows: Rows, board: string, user: string, rank: W.Role) {
    && board in rows.private
    && (!rows.private[board] || rank == W.Owner || rank == W.Admin || (board, user) in rows.members)
  }

  /** The caller has the board's owner row; no rank in the workspace makes up for it. */
  predicate Owns(rows: Rows, board: string, user: string) {
    (board, user) in rows.members && rows.members[(board, user)] == Owner
  }

  /** The caller is the board's owner or admin, or owner or admin of the workspace. */
  predicate Manages(rows: Rows, board: string, user: string, rank: W.Role) {
    || Owns(rows, board, user)
    || rank == W.Owner || rank == W.Admin
    || ((board, user) in rows.members && rows.members[(board, user)] == Admin)
  }

  /**
   A manager adds a member of the workspace who is not on the board yet; only the board's owner adds
   one as an admin. Without a wanted role the row says editor.
   */
  lemma AddIff(rows: Rows, board: string, user: string, rank: W.Role, target: string, wanted: Option<Grant>, inWorkspace: bool)
    ensures var (after, error) := Serve(rows, AddMember(board, user, rank, target, wanted, inWorkspace));
            && (error.None? <==>
                  && MaySee(rows, board, user, rank) && Manages(rows, board, user, rank)
                  && (wanted == Some(Admin) ==> Owns(rows, board, user))
                  && inWorkspace && (board, target) !in rows.members)
            && after.private == rows.private
            && after.members == (if error.Some? then rows.members
                                 else rows.members[(board, target) := if wanted == Some(Admin) then Admin else Editor])
  {
  }

  /** A manager removes a member that is not the owner; only the board's owner removes an admin. */
  lemma RemoveIff(rows: Rows, board: string, user: string, rank: W.Role, target: string)
    ensures var (after, error) := Serve(rows, RemoveMember(board, user, rank, target));
            && (error.None? <==>
                  && MaySee(rows, board, user, rank) && Manages(rows, board, user, rank)
                  && (board, target) in rows.members && rows.members[(board, target)] != Owner
                  && (rows.members[(board, target)] == Admin ==> Owns(rows, board, user)))
            && after.private == rows.private
            && after.members == (if error.Some? then rows.members else rows.members - {(board, target)})
  {
  }

  /** The board's owner alone changes a role, and never the owner's own row. */
  lemma ChangeRoleIff(rows: Rows, board: string, user: string, rank: W.Role, target: string, role: Grant)
    ensures var (after, error) := Serve(rows, ChangeRole(board, user, rank, target, role));
            && (error.None? <==>
                  && board in rows.private && Owns(rows, board, user)
                  && (board, target) in rows.members && rows.members[(board, target)] != Owner)
            && after.private == rows.private
            && after.members == (if error.Some? then rows.members else rows.members[(board, target) := role])
  {
  }

  /** The board's owner alone hands the board on, to another of its members, and stays as an admin. */
  lemma TransferIff(rows: Rows, board: string, user: string, rank: W.Role, target: string)
    ensures var (after, error) := Serve(rows, TransferOwnership(board, user, rank, target));
            && (error.None? <==>
                  && board in rows.private && Owns(rows, board, user)
                  && target != user && (board, target) in rows.members)
            && after.private == rows.private
            && after.members == (if error.Some? then rows.members
                                 else rows.members[(board, user) := Admin][(board, target) := Owner])
  {
  }

  /** The board's owner and the workspace's owner alone delete the board, and with it exactly its member rows. */
  lemma DeleteIff(rows: Rows, board: string, user: string, rank: W.Role)
    ensures var (after, error) := Serve(rows, DeleteBoard(board, user, rank));
            && (error.None? <==> board in rows.private && (Owns(rows, board, user) || rank == W.Owner))
            && (error.Some? ==> after == rows)
            && (error.None? ==>
                  && after.private == rows.private - {board}
                  && (forall k :: k in after.members <==> k in rows.members && k.0 != board)
                  && (forall k | k in after.members :: after.members[k] == rows.members[k]))
  {
  }

  /** Anyone creates a board, under an identifier not used yet, and owns it. */
  lemma CreateEffect(rows: Rows, board: string, private: bool, user: string)
    requires board !in rows.private
    ensures var (after, error) := Serve(rows, CreateBoard(board, private, user));
            && error.None? && after.private == rows.private[board := private]
            && after.members == rows.members[(board, user) := Owner]
  {
  }

  /** A missing board is reported as such to everyone, a hidden one as access denied, and nothing is said about its members. */
  lemma HiddenIff(rows: Rows, r: Request)
    requires !r.CreateBoard?
    ensures var (after, error) := Serve(rows, r);
            && (r.board !in rows.private ==> error == Some(NotFound))
            && (error == Some(AccessDenied) <==> r.board in rows.private && !MaySee(rows, r.board, r.user, r.rank))
  {
  }

  /** Why a request on a board the caller sees is refused. */
  lemma RefusalIff(rows: Rows, r: Request)
    requires !r.CreateBoard? && MaySee(rows, r.board, r.user, r.rank)
    ensures var error := Serve(rows, r).1;
            match r
            case AddMember(board, user, rank, target, wanted, inWorkspace) =>
              var allowed := Manages(rows, board, user, rank) && (wanted == Some(Admin) ==> Owns(rows, board, user));
              && (error == Some(Forbidden) <==> !allowed)
              && (error == Some(UserNotFound) <==> allowed && !inWorkspace)
              && (error == Some(AlreadyBoardMember) <==> allowed && inWorkspace && (board, target) in rows.members)
            case RemoveMember(board, user, rank, target) =>
              var found := (board, target) in rows.members;
              && (error == Some(NotFound) <==> Manages(rows, board, user, rank) && !found)
              && (error == Some(CannotRemoveBoardOwner) <==>
                    Manages(rows, board, user, rank) && found && rows.members[(board, target)] == Owner)
              && (error == Some(Forbidden) <==>
                    || !Manages(rows, board, user, rank)
                    || (found && rows.members[(board, target)] == Admin && !Owns(rows, board, user)))
            case ChangeRole(board, user, _, target, _) =>
              && (error == Some(Forbidden) <==> !Owns(rows, board, user))
              && (error == Some(NotFound) <==> Owns(rows, board, user) && (board, target) !in rows.members)
              && (error == Some(CannotRemoveBoardOwner) <==>
                    Owns(rows, board, user) && (board, target) in rows.members && rows.members[(board, target)] == Owner)
            case TransferOwnership(board, user, _, target) =>
              && (error == Some(Forbidden) <==> !Owns(rows, board, user) || target == user)
              && (error == Some(TargetNotBoardMember) <==>
                    Owns(rows, board, user) && target != user && (board, target) !in rows.members)
            case DeleteBoard(board, user, rank) =>
              error == Some(Forbidden) <==> !Owns(rows, board, user) && rank != W.Owner
            case CreateBoard(_, _, _) => true
  {
  }
}
