/**
 Who may do what to a workspace: for every kind of request run alone, exactly when it goes through and
 which rows it leaves, in terms of the rows alone.
 */
module WorkspaceAccess {
  import opened Common
  import opened Workspaces

  /** The caller's role, the checks and the write, with nothing in between. */
  function Serve(rows: Rows, ws: string, user: string, op: Op): (Rows, Phase) {
    var (_, authorized) := Next(rows, Arrived(ws, user, op));
    var (checked, decided) := Next(rows, authorized);
    Next(checked, decided)
  }

  /** A valid invitation, accepted with nothing in between. */
  function Accept(rows: Rows, ws: string, user: string, grant: Grant): (Rows, Phase) {
    Next(rows, Next(rows, Accepting(ws, user, grant)).1)
  }

  predicate Has(rows: Rows, ws: string, user: string, role: Role) {
    (ws, user) in rows.members && rows.members[(ws, user)] == role
  }

  predicate Manages(rows: Rows, ws: string, user: string) {
    Has(rows, ws, user, Owner) || Has(rows, ws, user, Admin)
  }

  /** The owner and the admins invite; the newcomer becomes a plain member. */
  lemma InviteIff(rows: Rows, ws: string, user: string, target: string)
    ensures var (after, end) := Serve(rows, ws, user, Invite(target));
            && end.Finished?
            && (end.error.None? <==>
                  Manages(rows, ws, user) && (ws, target) !in rows.members && ws in rows.owners)
            && (end.error == Some(NotMember) <==> (ws, user) !in rows.members)
            && (end.error == Some(Forbidden) <==> Has(rows, ws, user, Member))
            && (end.error == Some(AlreadyMember) <==> Manages(rows, ws, user) && (ws, target) in rows.members)
            && after.owners == rows.owners
            && after.members == (if end.error.None? then rows.members[(ws, target) := Member] else rows.members)
  {
  }

  /** The owner removes anyone else, an admin plain members only; the owner's row stays. */
  lemma RemoveIff(rows: Rows, ws: string, user: string, target: string)
    ensures var (after, end) := Serve(rows, ws, user, Remove(target));
            && end.Finished?
            && (end.error.None? <==>
                  || (Has(rows, ws, user, Owner) && (Has(rows, ws, target, Admin) || Has(rows, ws, target, Member)))
                  || (Has(rows, ws, user, Admin) && Has(rows, ws, target, Member)))
            && (end.error == Some(NotMember) <==> (ws, user) !in rows.members)
            && (end.error == Some(CannotRemoveOwner) <==> Manages(rows, ws, user) && Has(rows, ws, target, Owner))
            && (end.error == Some(NotFound) <==> Manages(rows, ws, user) && (ws, target) !in rows.members)
            && (end.error == Some(Forbidden) <==>
                  Has(rows, ws, user, Member) || (Has(rows, ws, user, Admin) && Has(rows, ws, target, Admin)))
            && after.owners == rows.owners
            && after.members == (if end.error.None? then rows.members - {(ws, target)} else rows.members)
  {
  }

  /** The owner alone changes a role, not the own one, to the role asked for. */
  lemma ChangeRoleIff(rows: Rows, ws: string, user: string, target: string, grant: Grant)
    ensures var (after, end) := Serve(rows, ws, user, ChangeRole(target, grant));
            && end.Finished?
            && (end.error.None? <==> Has(rows, ws, user, Owner) && user != target && (ws, target) in rows.members)
            && (end.error == Some(NotMember) <==> (ws, user) !in rows.members)
            && (end.error == Some(Forbidden) <==> (ws, user) in rows.members && !Has(rows, ws, user, Owner))
            && (end.error == Some(CannotChangeSelf) <==> Has(rows, ws, user, Owner) && user == target)
            && after.owners == rows.owners
            && after.members == (if end.error.None? then rows.members[(ws, target) := grant] else rows.members)
  {
  }

  /** The owner alone deletes the workspace, and with it exactly its member rows. */
  lemma DestroyIff(rows: Rows, ws: string, user: string)
    ensures var (after, end) := Serve(rows, ws, user, Destroy);
            && end.Finished?
            && (end.error.None? <==> Has(rows, ws, user, Owner) && ws in rows.owners)
            && (end.error == Some(Forbidden) <==> (ws, user) in rows.members && !Has(rows, ws, user, Owner))
            && (end.error.Some? ==> after == rows)
            && (end.error.None? ==>
                  && after.owners == rows.owners - {ws}
                  && (forall k :: k in after.members <==> k in rows.members && k.0 != ws)
                  && (forall k | k in after.members :: after.members[k] == rows.members[k]))
  {
  }

  /** Accepting always succeeds for a member, whose role stays; a newcomer gets the invitation's role if the workspace is still there. */
  lemma AcceptEffect(rows: Rows, ws: string, user: string, grant: Grant)
    ensures var (after, end) := Accept(rows, ws, user, grant);
            && end.Finished?
            && (end.error.None? <==> (ws, user) in rows.members || ws in rows.owners)
            && after.owners == rows.owners
            && after.members == (if (ws, user) !in rows.members && ws in rows.owners
                                 then rows.members[(ws, user) := grant] else rows.members)
  {
  }

  /** A new workspace adds its owner's row and changes no other. */
  lemma CreateEffect(s: State, ws: string, owner: string)
    requires ws !in s.born
    ensures var after := Step(s, Create(ws, owner));
            && after.rows.owners == s.rows.owners[ws := owner]
            && after.rows.members == s.rows.members[(ws, owner) := Owner]
            && after.requests == s.requests
  {
  }

  /** A failed statement writes nothing and ends its request; a step touches no other request. */
  lemma AdvanceEffect(s: State, request: nat, fault: bool)
    requires request in s.requests
    ensures var after := Step(s, Advance(request, fault));
            && after.requests.Keys == s.requests.Keys
            && (forall other | other in s.requests && other != request :: after.requests[other] == s.requests[other])
            && (fault ==> after.rows == s.rows && after.requests[request] == Finished(Some(Unavailable)))
            && (!fault ==> (after.rows, after.requests[request]) == Next(s.rows, s.requests[request]))
  {
  }

  // ---------- requests in the machine ----------

  /** A request that nothing interrupts. */
  function RunAlone(s: State, request: nat, ws: string, user: string, op: Op): State {
    var begun := Step(s, Begin(request, ws, user, op));
    var go := Advance(request, false);
    Step(Step(Step(begun, go), go), go)
  }

  /** The machine serves it as above. */
  lemma Uninterrupted(s: State, request: nat, ws: string, user: string, op: Op)
    requires request !in s.requests
    ensures var after := RunAlone(s, request, ws, user, op);
            && request in after.requests && after.born == s.born
            && (after.rows, after.requests[request]) == Serve(s.rows, ws, user, op)
  {
  }

  function RunAcceptAlone(s: State, request: nat, ws: string, user: string, grant: Grant): State {
    var begun := Step(s, BeginAccept(request, ws, user, grant));
    Step(Step(begun, Advance(request, false)), Advance(request, false))
  }

  lemma UninterruptedAccept(s: State, request: nat, ws: string, user: string, grant: Grant)
    requires request !in s.requests
    ensures var after := RunAcceptAlone(s, request, ws, user, grant);
            && request in after.requests && after.born == s.born
            && (after.rows, after.requests[request]) == Accept(s.rows, ws, user, grant)
  {
  }
}
