/**
 Workspace membership under every interleaving of requests. A step is one database statement or
 transaction; between its steps a request remembers what it read, however stale.
 */
module Workspaces {
  import opened Common

  datatype Role = Owner | Admin | Member

  /** The roles a request or an invitation may carry. */
  type Grant = r: Role | r != Owner witness Admin

  /** The `workspaces` rows with their `owner_id`, and the `workspace_members` rows. */
  datatype Rows = Rows(owners: map<string, string>, members: map<(string, string), Role>)

  datatype Error =
    | NotMember | Forbidden | NotFound | AlreadyMember | CannotRemoveOwner | CannotChangeSelf
    | Conflict | Unavailable

  // ---------- single statements ----------

  function CreateWithOwner(rows: Rows, ws: string, owner: string): Rows {
    Rows(rows.owners[ws := owner], rows.members[(ws, owner) := Owner])
  }

  /** The primary key and the foreign key reject what they must. */
  function AddMember(rows: Rows, ws: string, user: string, role: Grant): Result<Rows, Error> {
    if (ws, user) in rows.members || ws !in rows.owners then Err(Conflict)
    else Ok(rows.(members := rows.members[(ws, user) := role]))
  }

  function UpdateMemberRole(rows: Rows, ws: string, user: string, role: Grant): Result<Rows, Error> {
    if (ws, user) !in rows.members then Err(NotFound)
    else Ok(rows.(members := rows.members[(ws, user) := role]))
  }

  function RemoveMember(rows: Rows, ws: string, user: string): Result<Rows, Error> {
    if (ws, user) !in rows.members then Err(NotFound)
    else Ok(rows.(members := rows.members - {(ws, user)}))
  }

  /** Cascades to the member rows. */
  function Delete(rows: Rows, ws: string): Result<Rows, Error> {
    if ws !in rows.owners then Err(NotFound)
    else Ok(Rows(rows.owners - {ws}, map k | k in rows.members && k.0 != ws :: rows.members[k]))
  }

  function GetMember(rows: Rows, ws: string, user: string): Option<Role> {
    if (ws, user) in rows.members then Some(rows.members[(ws, user)]) else None
  }

  /** The repository, one method for each statement that writes. */
  class WorkspaceRepository {
    var owners: map<string, string>
    var members: map<(string, string), Role>

    function View(): Rows
      reads this
    {
      Rows(owners, members)
    }

    method Create(ws: string, owner: string)
      modifies this
      ensures View() == CreateWithOwner(old(View()), ws, owner)
    {
      owners := owners[ws := owner];
      members := members[(ws, owner) := Owner];
    }

    method Add(ws: string, user: string, role: Grant) returns (error: Option<Error>)
      modifies this`members
      ensures Committed(old(View()), AddMember(old(View()), ws, user, role), View(), error)
    {
      if (ws, user) in members || ws !in owners {
        return Some(Conflict);
      }
      members := members[(ws, user) := role];
      return None;
    }

    method Update(ws: string, user: string, role: Grant) returns (error: Option<Error>)
      modifies this`members
      ensures Committed(old(View()), UpdateMemberRole(old(View()), ws, user, role), View(), error)
    {
      if (ws, user) !in members {
        return Some(NotFound);
      }
      members := members[(ws, user) := role];
      return None;
    }

    method Remove(ws: string, user: string) returns (error: Option<Error>)
      modifies this`members
      ensures Committed(old(View()), RemoveMember(old(View()), ws, user), View(), error)
    {
      if (ws, user) !in members {
        return Some(NotFound);
      }
      members := members - {(ws, user)};
      return None;
    }

    method Drop(ws: string) returns (error: Option<Error>)
      modifies this
      ensures Committed(old(View()), Delete(old(View()), ws), View(), error)
    {
      if ws !in owners {
        return Some(NotFound);
      }
      owners := owners - {ws};
      members := map k | k in members && k.0 != ws :: members[k];
      return None;
    }
  }

  /** A statement either committed the new rows or failed and left them alone. */
  ghost predicate Committed(before: Rows, outcome: Result<Rows, Error>, after: Rows, error: Option<Error>) {
    match outcome
    case Ok(rows) => after == rows && error.None?
    case Err(e) => after == before && error == Some(e)
  }

  // ---------- requests between their steps ----------

  datatype Op = Invite(target: string) | Remove(target: string) | ChangeRole(target: string, role: Grant) | Destroy

  datatype Phase =
    | Arrived(ws: string, user: string, op: Op)                // the middleware reads the caller's role next
    | Authorized(ws: string, user: string, role: Role, op: Op) // the service checks it and reads the target next
    | Accepting(ws: string, user: string, grant: Grant)        // a valid invitation; reads the caller's row next
    | Inserting(ws: string, target: string, grant: Grant)
    | Removing(ws: string, target: string)
    | Updating(ws: string, target: string, grant: Grant)
    | Finished(error: Option<Error>)

  /** `born` remembers the owner of every workspace ever created; identifiers are not reused. */
  datatype State = State(rows: Rows, born: map<string, string>, requests: map<nat, Phase>)

  datatype Event =
    | Create(ws: string, owner: string)
    | Begin(request: nat, ws: string, user: string, op: Op)
    | BeginAccept(request: nat, ws: string, user: string, grant: Grant)
    | Advance(request: nat, fault: bool)

  const INITIAL := State(Rows(map[], map[]), map[], map[])

  /** The service code between the caller's role and the write: guards, then the read of the target's row. */
  function Decide(rows: Rows, ws: string, user: string, role: Role, op: Op): Phase {
    match op
    case Invite(target) =>
      if role.Member? then Finished(Some(Forbidden))
      else if GetMember(rows, ws, target).Some? then Finished(Some(AlreadyMember))
      else Inserting(ws, target, Member)
    case Remove(target) =>
      if role.Member? then Finished(Some(Forbidden))
      else (match GetMember(rows, ws, target)
            case None => Finished(Some(NotFound))
            case Some(Owner) => Finished(Some(CannotRemoveOwner))
            case Some(found) => if role.Admin? && found.Admin? then Finished(Some(Forbidden)) else Removing(ws, target))
    case ChangeRole(target, grant) =>
      if !role.Owner? then Finished(Some(Forbidden))
      else if user == target then Finished(Some(CannotChangeSelf))
      else if GetMember(rows, ws, target).None? then Finished(Some(NotFound))
      else Updating(ws, target, grant)
    case Destroy => Finished(Some(Forbidden))
  }

  /** A write that ends its request. */
  function Write(rows: Rows, outcome: Result<Rows, Error>): (Rows, Phase) {
    match outcome
    case Ok(after) => (after, Finished(None))
    case Err(e) => (rows, Finished(Some(e)))
  }

  /** One database step of a request. */
  function Next(rows: Rows, p: Phase): (Rows, Phase) {
    match p
    case Arrived(ws, user, op) =>
      (match GetMember(rows, ws, user)
       case None => (rows, Finished(Some(NotMember)))
       case Some(role) => (rows, Authorized(ws, user, role, op)))
    case Authorized(ws, user, role, op) =>
      if op.Destroy? && role.Owner? then Write(rows, Delete(rows, ws)) else (rows, Decide(rows, ws, user, role, op))
    case Accepting(ws, user, grant) =>
      if GetMember(rows, ws, user).Some? then (rows, Finished(None)) else (rows, Inserting(ws, user, grant))
    case Inserting(ws, target, grant) => Write(rows, AddMember(rows, ws, target, grant))
    case Removing(ws, target) => Write(rows, RemoveMember(rows, ws, target))
    case Updating(ws, target, grant) => Write(rows, UpdateMemberRole(rows, ws, target, grant))
    case Finished(_) => (rows, p)
  }

  /** A request's own code: each step is the repository calls and guards of the services, and then it waits. */
  class WorkspaceService {
    const workspaces: WorkspaceRepository

    constructor (workspaces: WorkspaceRepository)
      ensures this.workspaces == workspaces
    {
      this.workspaces := workspaces;
    }

    method Advance(p: Phase) returns (next: Phase)
      modifies workspaces
      ensures (workspaces.View(), next) == Next(old(workspaces.View()), p)
    {
      match p
      case Arrived(ws, user, op) =>
        var role := GetMember(workspaces.View(), ws, user);
        next := if role.None? then Finished(Some(NotMember)) else Authorized(ws, user, role.value, op);
      case Authorized(ws, user, role, op) =>
        if op.Destroy? && role.Owner? {
          var error := workspaces.Drop(ws);
          next := Finished(error);
        } else {
          next := Decide(workspaces.View(), ws, user, role, op);
        }
      case Accepting(ws, user, grant) =>
        var role := GetMember(workspaces.View(), ws, user);
        next := if role.Some? then Finished(None) else Inserting(ws, user, grant);
      case Inserting(ws, target, grant) =>
        var error := workspaces.Add(ws, target, grant);
        next := Finished(error);
      case Removing(ws, target) =>
        var error := workspaces.Remove(ws, target);
        next := Finished(error);
      case Updating(ws, target, grant) =>
        var error := workspaces.Update(ws, target, grant);
        next := Finished(error);
      case Finished(_) =>
        next := p;
    }
  }

  predicate Enabled(s: State, e: Event) {
    match e
    case Create(ws, _) => ws !in s.born
    case Begin(request, _, _, _) => request !in s.requests
    case BeginAccept(request, _, _, _) => request !in s.requests
    case Advance(request, _) => request in s.requests
  }

  /** An event that is not enabled does not happen. */
  function Step(s: State, e: Event): State {
    if !Enabled(s, e) then s else
    match e
    case Create(ws, owner) => s.(rows := CreateWithOwner(s.rows, ws, owner), born := s.born[ws := owner])
    case Begin(request, ws, user, op) => s.(requests := s.requests[request := Arrived(ws, user, op)])
    case BeginAccept(request, ws, user, grant) => s.(requests := s.requests[request := Accepting(ws, user, grant)])
    case Advance(request, fault) =>
      if fault then s.(requests := s.requests[request := Finished(Some(Unavailable))])
      else
        var (rows, phase) := Next(s.rows, s.requests[request]);
        s.(rows := rows, requests := s.requests[request := phase])
  }

  function Exec(events: seq<Event>): State {
    if events == [] then INITIAL else Step(Exec(events[..|events| - 1]), events[|events| - 1])
  }

  // ---------- the owner ----------

  /** Every live workspace has its owner's row, and no other owner row. */
  ghost predicate OneOwner(rows: Rows) {
    && (forall ws | ws in rows.owners :: GetMember(rows, ws, rows.owners[ws]) == Some(Owner))
    && (forall k | k in rows.members :: k.0 in rows.owners && (rows.members[k].Owner? ==> k.1 == rows.owners[k.0]))
  }

  /** What a request still knows, although the rows may have changed since it read them. */
  ghost predicate StillTrue(born: map<string, string>, p: Phase) {
    match p
    case Authorized(ws, user, role, _) => ws in born && (role.Owner? ==> user == born[ws])
    case Removing(ws, target) => ws in born && target != born[ws]
    case Updating(ws, target, _) => ws in born && target != born[ws]
    case _ => true
  }

  ghost predicate Sound(s: State) {
    && OneOwner(s.rows)
    && (forall ws | ws in s.rows.owners :: ws in s.born && s.born[ws] == s.rows.owners[ws])
    && (forall r | r in s.requests :: StillTrue(s.born, s.requests[r]))
  }

  lemma NextKeepsOneOwner(rows: Rows, born: map<string, string>, p: Phase)
    requires OneOwner(rows) && StillTrue(born, p)
    requires forall ws | ws in rows.owners :: ws in born && born[ws] == rows.owners[ws]
    ensures var (after, next) := Next(rows, p);
            && OneOwner(after) && StillTrue(born, next)
            && forall ws | ws in after.owners :: ws in rows.owners && after.owners[ws] == rows.owners[ws]
  {
  }

  /** A new workspace disturbs neither the others nor what requests remember. */
  lemma CreateKeepsSound(s: State, ws: string, owner: string)
    requires Sound(s) && ws !in s.born
    ensures Sound(s.(rows := CreateWithOwner(s.rows, ws, owner), born := s.born[ws := owner]))
  {
    CreateKeepsOneOwner(s.rows, s.born, ws, owner);
    hide OneOwner, CreateWithOwner;
  }

  lemma CreateKeepsOneOwner(rows: Rows, born: map<string, string>, ws: string, owner: string)
    requires OneOwner(rows) && ws !in born && forall w | w in rows.owners :: w in born
    ensures OneOwner(CreateWithOwner(rows, ws, owner)) && CreateWithOwner(rows, ws, owner).owners == rows.owners[ws := owner]
  {
  }

  lemma AdvanceKeepsSound(s: State, request: nat)
    requires Sound(s) && request in s.requests
    ensures var (rows, phase) := Next(s.rows, s.requests[request]);
            Sound(s.(rows := rows, requests := s.requests[request := phase]))
  {
    NextKeepsOneOwner(s.rows, s.born, s.requests[request]);
    hide Next, OneOwner, StillTrue;
  }

  lemma StepKeepsSound(s: State, e: Event)
    requires Sound(s)
    ensures Sound(Step(s, e))
  {
    hide Next, OneOwner, CreateWithOwner;
    if Enabled(s, e) {
      match e
      case Create(ws, owner) => CreateKeepsSound(s, ws, owner);
      case Advance(request, fault) =>
        if !fault {
          AdvanceKeepsSound(s, request);
        }
      case _ =>
    }
  }

  lemma {:induction false} RunKeepsSound(events: seq<Event>)
    ensures Sound(Exec(events))
  {
    hide Step, Sound;
    if events == [] {
      InitialIsSound();
    } else {
      RunKeepsSound(events[..|events| - 1]);
      StepKeepsSound(Exec(events[..|events| - 1]), events[|events| - 1]);
    }
  }

  lemma InitialIsSound()
    ensures Sound(INITIAL)
  {
  }

  /**
   Under every interleaving a live workspace has exactly one owner row, that of its `owner_id`,
   which is still the user who created it.
   */
  lemma ExactlyOneOwner(events: seq<Event>, ws: string, user: string)
    requires ws in Exec(events).rows.owners
    ensures var rows := Exec(events).rows;
            && (GetMember(rows, ws, user) == Some(Owner) <==> user == rows.owners[ws])
            && ws in Exec(events).born && rows.owners[ws] == Exec(events).born[ws]
  {
    hide Exec;
    RunKeepsSound(events);
  }
}
