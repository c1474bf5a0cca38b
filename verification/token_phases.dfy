/**
 Token rotation under every interleaving. A step is one database statement; between its steps a
 request remembers what it read, however stale.
 */
module TokenPhases {
  import opened Common
  import opened RefreshTokens

  datatype Phase =
    | Presenting(hash: string)                     // a refresh; reads the presented token next
    | Passed(hash: string, user: string)           // it was neither revoked nor expired; revokes it next
    | Detected(user: string)                       // it was revoked; revokes all of the user's next
    | LoggingIn(user: string)                      // the password was right; revokes all of the user's next
    | Registering(user: string)                    // the e-mail was free; creates the user next
    | Issuing(user: string, spent: Option<string>) // inserts the new token next
    | Leaving(hash: string)                        // a logout; looks the token up next
    | Quitting(hash: string)                       // it is stored; revokes it next
    | Ended(error: Option<Error>)

  datatype System = System(db: State, requests: map<nat, Phase>)

  datatype Event =
    | Begin(request: nat, phase: Phase)
    | Advance(request: nat, now: real, hash: string, expires: real, fault: bool)

  const INITIAL := System(State({}, map[], []), map[])

  /** One database step of a request; `hash` and `expires` are those of the token it may issue. */
  function Next(db: State, p: Phase, now: real, hash: string, expires: real): (State, Phase) {
    match p
    case Presenting(h) =>
      if h !in db.tokens then (db, Ended(Some(InvalidToken)))
      else
        var stored := db.tokens[h];
        (db, if stored.revoked then Detected(stored.user)
             else if now > stored.expires then Ended(Some(Expired))
             else Passed(h, stored.user))
    case Passed(h, user) => (db.(tokens := Revoke(db.tokens, h)), Issuing(user, Some(h)))
    case Detected(user) => (db.(tokens := RevokeAllForUser(db.tokens, user)), Ended(Some(TheftDetected)))
    case LoggingIn(user) => (db.(tokens := RevokeAllForUser(db.tokens, user)), Issuing(user, None))
    case Registering(user) =>
      if user in db.users then (db, Ended(Some(Unavailable)))
      else (db.(users := db.users + {user}), Issuing(user, None))
    case Issuing(user, spent) =>
      (db.(tokens := Insert(db.tokens, hash, user, expires),
           redeemed := if spent.Some? then db.redeemed + [spent.value] else db.redeemed), Ended(None))
    case Leaving(h) => (db, if h in db.tokens then Quitting(h) else Ended(None))
    case Quitting(h) => (db.(tokens := Revoke(db.tokens, h)), Ended(None))
    case Ended(_) => (db, p)
  }

  /** A failed statement ends its request; the revocation after a theft and the look-up of a logout are allowed to fail. */
  function Failed(p: Phase): Phase {
    match p
    case Ended(_) => p
    case Detected(_) => Ended(Some(TheftDetected))
    case Leaving(_) => Ended(None)
    case _ => Ended(Some(Unavailable))
  }

  /** A request begins with what its first reads allow; a token to be inserted is new. */
  predicate Enabled(s: System, e: Event) {
    match e
    case Begin(request, p) =>
      && request !in s.requests
      && (p.Presenting? || p.Leaving?
          || (p.LoggingIn? && p.user in s.db.users) || (p.Registering? && p.user !in s.db.users))
    case Advance(request, _, hash, _, _) =>
      request in s.requests && (s.requests[request].Issuing? ==> hash !in s.db.tokens)
  }

  /** An event that is not enabled does not happen. */
  function Step(s: System, e: Event): System {
    if !Enabled(s, e) then s else
    match e
    case Begin(request, p) => s.(requests := s.requests[request := p])
    case Advance(request, now, hash, expires, fault) =>
      var p := s.requests[request];
      if fault then s.(requests := s.requests[request := Failed(p)])
      else
        var (db, next) := Next(s.db, p, now, hash, expires);
        System(db, s.requests[request := next])
  }

  function Exec(events: seq<Event>): System {
    if events == [] then INITIAL else Step(Exec(events[..|events| - 1]), events[|events| - 1])
  }

  // ---------- when one token stays one ----------

  /** The step inserts a token of a user who has an unrevoked one. */
  predicate Collides(s: System, e: Event) {
    && Enabled(s, e) && e.Advance? && !e.fault && s.requests[e.request].Issuing?
    && exists h | h in s.db.tokens :: Active(s.db.tokens, h, s.requests[e.request].user)
  }

  lemma StepKeepsOneActiveIff(s: System, e: Event)
    requires AtMostOneActive(s.db.tokens)
    ensures AtMostOneActive(Step(s, e).db.tokens) <==> !Collides(s, e)
  {
    if Enabled(s, e) && e.Advance? && !e.fault && s.requests[e.request].Issuing? {
      InsertKeepsOneActiveIff(s.db.tokens, e.hash, s.requests[e.request].user, e.expires);
    }
  }

  /** In every state of the run each user has at most one unrevoked token. */
  ghost predicate OneActiveThroughout(events: seq<Event>) {
    forall k | 0 <= k <= |events| :: AtMostOneActive(Exec(events[..k]).db.tokens)
  }

  /** No step of the run collides. */
  ghost predicate NeverCollides(events: seq<Event>) {
    forall k | 0 <= k < |events| :: !Collides(Exec(events[..k]), events[k])
  }

  lemma OneActiveSnoc(front: seq<Event>, e: Event)
    ensures OneActiveThroughout(front + [e])
       <==> OneActiveThroughout(front) && AtMostOneActive(Exec(front + [e]).db.tokens)
  {
    hide Exec, AtMostOneActive;
    var events := front + [e];
    assert forall k | 0 <= k <= |front| :: events[..k] == front[..k];
    assert events[..|events|] == events;
  }

  lemma NeverCollidesSnoc(front: seq<Event>, e: Event)
    ensures NeverCollides(front + [e]) <==> NeverCollides(front) && !Collides(Exec(front), e)
  {
    hide Exec, Collides;
    var events := front + [e];
    assert forall k | 0 <= k < |front| :: events[..k] == front[..k];
    assert events[..|front|] == front;
  }

  /** Over every interleaving, users stay at one unrevoked token throughout if and only if no insert finds another one. */
  lemma {:induction false} RunKeepsOneActiveIff(events: seq<Event>)
    ensures OneActiveThroughout(events) <==> NeverCollides(events)
  {
    hide Step, Collides, AtMostOneActive;
    if events == [] {
      InitialOk();
    } else {
      var front, e := events[..|events| - 1], events[|events| - 1];
      assert events == front + [e];
      hide OneActiveThroughout, NeverCollides;
      RunKeepsOneActiveIff(front);
      OneActiveSnoc(front, e);
      NeverCollidesSnoc(front, e);
      if OneActiveThroughout(front) {
        LastIsOneActive(front);
        StepKeepsOneActiveIff(Exec(front), e);
      }
    }
  }

  lemma LastIsOneActive(events: seq<Event>)
    requires OneActiveThroughout(events)
    ensures AtMostOneActive(Exec(events).db.tokens)
  {
    assert events[..|events|] == events;
  }

  lemma InitialOk()
    ensures AtMostOneActive(INITIAL.db.tokens) && SystemOk(INITIAL)
  {
  }

  // ---------- requests that do not overlap ----------

  /** The request will insert a token if nothing fails, and depends on nobody else doing so first. */
  predicate Critical(p: Phase) {
    p.Passed? || p.Issuing?
  }

  /** No two requests of one user are that far at the same time. */
  ghost predicate Alone(s: System) {
    forall a, b | a in s.requests && b in s.requests && a != b && Critical(s.requests[a]) && Critical(s.requests[b]) ::
      s.requests[a].user != s.requests[b].user
  }

  /** What a request still knows. */
  ghost predicate StillTrue(db: State, p: Phase) {
    match p
    case Passed(h, user) =>
      && user in db.users && h in db.tokens && db.tokens[h].user == user && h !in db.redeemed
      && forall other | other in db.tokens && Active(db.tokens, other, user) :: other == h
    case Issuing(user, spent) =>
      && user in db.users && NoneActive(db.tokens, user)
      && (spent.Some? ==>
            && spent.value in db.tokens && db.tokens[spent.value].user == user
            && db.tokens[spent.value].revoked && spent.value !in db.redeemed)
    case LoggingIn(user) => user in db.users
    case _ => true
  }

  ghost predicate SystemOk(s: System) {
    Sound(s.db) && forall r | r in s.requests :: StillTrue(s.db, s.requests[r])
  }

  /** The rows after one step, for the request that took it. */
  lemma NextKeepsSound(db: State, p: Phase, now: real, hash: string, expires: real)
    requires Sound(db) && StillTrue(db, p) && (p.Issuing? ==> hash !in db.tokens)
    ensures var (after, next) := Next(db, p, now, hash, expires); Sound(after) && StillTrue(after, next)
  {
    if p.Issuing? {
      InsertKeepsOneActiveIff(db.tokens, hash, p.user, expires);
    }
  }

  /** The same step, for any other request that is not of the same user and as far. */
  lemma NextKeepsOthers(db: State, p: Phase, now: real, hash: string, expires: real, other: Phase)
    requires Sound(db) && StillTrue(db, p) && StillTrue(db, other) && (p.Issuing? ==> hash !in db.tokens)
    requires Critical(p) && Critical(other) ==> p.user != other.user
    ensures StillTrue(Next(db, p, now, hash, expires).0, other)
  {
  }

  lemma StepKeepsOk(s: System, e: Event)
    requires SystemOk(s) && Alone(s)
    ensures SystemOk(Step(s, e))
  {
    hide Next, Sound, StillTrue;
    if Enabled(s, e) {
      match e
      case Begin(request, p) => FreshStillTrue(s.db, p);
      case Advance(request, now, hash, expires, fault) =>
        var p := s.requests[request];
        FailedStillTrue(s.db, p);
        if !fault {
          NextKeepsSound(s.db, p, now, hash, expires);
          forall other | other in s.requests && other != request
            ensures StillTrue(Next(s.db, p, now, hash, expires).0, s.requests[other])
          {
            NextKeepsOthers(s.db, p, now, hash, expires, s.requests[other]);
          }
        }
    }
  }

  lemma FreshStillTrue(db: State, p: Phase)
    requires !Critical(p) && (p.LoggingIn? ==> p.user in db.users)
    ensures StillTrue(db, p)
  {
  }

  lemma FailedStillTrue(db: State, p: Phase)
    ensures StillTrue(db, Failed(p))
  {
  }

  lemma {:induction false} RunKeepsOk(events: seq<Event>)
    requires forall k | 0 <= k < |events| :: Alone(Exec(events[..k]))
    ensures SystemOk(Exec(events))
  {
    hide Step, SystemOk, Alone;
    if events == [] {
      InitialOk();
    } else {
      var front := events[..|events| - 1];
      assert forall k | 0 <= k < |front| :: front[..k] == events[..k];
      RunKeepsOk(front);
      StepKeepsOk(Exec(front), events[|events| - 1]);
    }
  }

  /**
   Over every interleaving in which no two requests of one user get as far as their writes
   together, a user has at most one unrevoked token and no token is redeemed twice.
   */
  lemma RotationWithoutOverlap(events: seq<Event>, user: string, a: string, b: string)
    requires forall k | 0 <= k < |events| :: Alone(Exec(events[..k]))
    ensures var db := Exec(events).db;
            && (Active(db.tokens, a, user) && Active(db.tokens, b, user) ==> a == b)
            && (forall i, j | 0 <= i < j < |db.redeemed| :: db.redeemed[i] != db.redeemed[j])
            && (forall i | 0 <= i < |db.redeemed| :: db.redeemed[i] in db.tokens && db.tokens[db.redeemed[i]].revoked)
  {
    hide Exec, Alone;
    RunKeepsOk(events);
  }

  // ---------- redeeming ----------

  /** The request is past its check of the token and will redeem it if nothing fails. */
  predicate Holds(p: Phase, hash: string) {
    (p.Passed? && p.hash == hash) || (p.Issuing? && p.spent == Some(hash))
  }

  /** No two requests are past their checks of the same token. */
  ghost predicate NoneShared(s: System) {
    forall a, b, h | a in s.requests && b in s.requests && a != b && Holds(s.requests[a], h) :: !Holds(s.requests[b], h)
  }

  ghost predicate RedeemedOnce(redeemed: seq<string>) {
    forall i, j | 0 <= i < j < |redeemed| :: redeemed[i] != redeemed[j]
  }

  /** Redeemed tokens are stored and revoked, each redeemed once. */
  ghost predicate SpentOk(db: State) {
    && RedeemedOnce(db.redeemed)
    && forall h | h in db.redeemed :: h in db.tokens && db.tokens[h].revoked
  }

  /** The token a request holds is stored and not redeemed yet; one it will redeem next is revoked. */
  ghost predicate HeldOk(db: State, p: Phase) {
    forall h | Holds(p, h) :: h in db.tokens && h !in db.redeemed && (p.Issuing? ==> db.tokens[h].revoked)
  }

  ghost predicate RedeemOk(s: System) {
    SpentOk(s.db) && forall r | r in s.requests :: HeldOk(s.db, s.requests[r])
  }

  lemma NextKeepsSpent(db: State, p: Phase, now: real, hash: string, expires: real)
    requires SpentOk(db) && HeldOk(db, p) && (p.Issuing? ==> hash !in db.tokens)
    ensures var (after, next) := Next(db, p, now, hash, expires); SpentOk(after) && HeldOk(after, next)
  {
    if p.Issuing? && p.spent.Some? {
      assert Holds(p, p.spent.value);
    } else if p.Passed? {
      assert Holds(p, p.hash);
    }
  }

  lemma NextKeepsHeld(db: State, p: Phase, now: real, hash: string, expires: real, other: Phase)
    requires HeldOk(db, other) && (p.Issuing? ==> hash !in db.tokens)
    requires forall h | Holds(p, h) :: !Holds(other, h)
    ensures HeldOk(Next(db, p, now, hash, expires).0, other)
  {
    var after := Next(db, p, now, hash, expires).0;
    forall h | Holds(other, h)
      ensures h in after.tokens && h !in after.redeemed && (other.Issuing? ==> after.tokens[h].revoked)
    {
      if p.Issuing? && p.spent.Some? {
        assert Holds(p, p.spent.value);
      }
    }
  }

  lemma StepKeepsRedeem(s: System, e: Event)
    requires RedeemOk(s) && NoneShared(s)
    ensures RedeemOk(Step(s, e))
  {
    hide Next, SpentOk, HeldOk, Holds;
    if Enabled(s, e) {
      match e
      case Begin(request, p) => NothingHeld(s.db, p);
      case Advance(request, now, hash, expires, fault) =>
        var p := s.requests[request];
        NothingHeld(s.db, Failed(p));
        if !fault {
          NextKeepsSpent(s.db, p, now, hash, expires);
          forall other | other in s.requests && other != request
            ensures HeldOk(Next(s.db, p, now, hash, expires).0, s.requests[other])
          {
            NextKeepsHeld(s.db, p, now, hash, expires, s.requests[other]);
          }
        }
    }
  }

  lemma NothingHeld(db: State, p: Phase)
    requires !Critical(p)
    ensures HeldOk(db, p)
  {
  }

  lemma {:induction false} RunKeepsRedeem(events: seq<Event>)
    requires forall k | 0 <= k < |events| :: NoneShared(Exec(events[..k]))
    ensures RedeemOk(Exec(events))
  {
    hide Step, NoneShared;
    if events != [] {
      var front := events[..|events| - 1];
      assert forall k | 0 <= k < |front| :: front[..k] == events[..k];
      RunKeepsRedeem(front);
      StepKeepsRedeem(Exec(front), events[|events| - 1]);
    }
  }

  /**
   Over every interleaving in which no two requests are past their checks of one token together,
   every token is redeemed at most once, and is revoked from then on. Other overlaps do no harm.
   */
  lemma RedeemedOnceOverRuns(events: seq<Event>)
    requires forall k | 0 <= k < |events| :: NoneShared(Exec(events[..k]))
    ensures var db := Exec(events).db;
            RedeemedOnce(db.redeemed) && forall h | h in db.redeemed :: h in db.tokens && db.tokens[h].revoked
  {
    hide Exec, NoneShared, RedeemedOnce;
    RunKeepsRedeem(events);
  }

  // ---------- requests that do ----------

  /** A request past its checks, run to its end. */
  function Finish(s: System, request: nat, now: real, hash: string, expires: real): System
    requires request in s.requests && Critical(s.requests[request])
  {
    var next := Advance(request, now, hash, expires, false);
    if s.requests[request].Passed? then Step(Step(s, next), next) else Step(s, next)
  }

  lemma FinishEffect(s: System, request: nat, now: real, hash: string, expires: real)
    requires request in s.requests && Critical(s.requests[request]) && hash !in s.db.tokens
    ensures var after := Finish(s, request, now, hash, expires);
            var p := s.requests[request];
            && after.requests == s.requests[request := Ended(None)]
            && after.db.tokens == Rotate(s.db.tokens, p, hash, expires)
            && after.db.redeemed == s.db.redeemed + Redeems(p)
  {
  }

  /**
   Two requests past their checks can both finish with one unrevoked token a user if and only if they
   are of different users.
   */
  lemma BothFinishIff(s: System, a: nat, b: nat, now: real, one: string, other: string, expires: real)
    requires SystemOk(s) && a in s.requests && b in s.requests && a != b
    requires Critical(s.requests[a]) && Critical(s.requests[b])
    requires one != other && one !in s.db.tokens && other !in s.db.tokens
    ensures var mid := Finish(s, a, now, one, expires);
            && b in mid.requests && mid.requests[b] == s.requests[b]
            && (s.requests[a].user != s.requests[b].user <==>
                  AtMostOneActive(Finish(mid, b, now, other, expires).db.tokens))
  {
    hide Finish, AtMostOneActive;
    FinishEffect(s, a, now, one, expires);
    var mid := Finish(s, a, now, one, expires);
    FinishEffect(mid, b, now, other, expires);
    RotateEffect(s.db, s.requests[a], one, expires);
    RotateAfterOther(s.db, s.requests[a], s.requests[b], one, other, expires);
  }

  /** The tokens after a request past its checks has revoked and issued. */
  function Rotate(tokens: Tokens, p: Phase, hash: string, expires: real): Tokens
    requires Critical(p)
  {
    Insert(if p.Passed? then Revoke(tokens, p.hash) else tokens, hash, p.user, expires)
  }

  lemma RotateEffect(db: State, p: Phase, hash: string, expires: real)
    requires Sound(db) && Critical(p) && StillTrue(db, p) && hash !in db.tokens
    ensures AtMostOneActive(Rotate(db.tokens, p, hash, expires))
    ensures Active(Rotate(db.tokens, p, hash, expires), hash, p.user)
  {
    var left := if p.Passed? then Revoke(db.tokens, p.hash) else db.tokens;
    assert NoneActive(left, p.user);
    InsertKeepsOneActiveIff(left, hash, p.user, expires);
  }

  lemma RevokeKeepsOneActive(tokens: Tokens, hash: string)
    requires AtMostOneActive(tokens)
    ensures AtMostOneActive(Revoke(tokens, hash))
  {
  }

  /**
   After a request of `p`, the revocation of `q` leaves its user without an unrevoked token unless the
   new one is that user's.
   */
  lemma RevokedAfterOther(db: State, p: Phase, q: Phase, one: string, expires: real)
    requires Critical(p) && StillTrue(db, p) && Critical(q) && StillTrue(db, q) && one !in db.tokens
    ensures var first := Rotate(db.tokens, p, one, expires);
            NoneActive(if q.Passed? then Revoke(first, q.hash) else first, q.user) <==> p.user != q.user
  {
    var first := Rotate(db.tokens, p, one, expires);
    var rest := if q.Passed? then Revoke(first, q.hash) else first;
    if p.user == q.user {
      assert one in rest && Active(rest, one, q.user);
    } else {
      forall h | h in rest ensures !Active(rest, h, q.user) {
        assert h != one && Active(rest, h, q.user) ==> Active(db.tokens, h, q.user);
      }
    }
  }

  lemma RotateAfterOther(db: State, p: Phase, q: Phase, one: string, other: string, expires: real)
    requires Sound(db) && Critical(p) && StillTrue(db, p) && Critical(q) && StillTrue(db, q)
    requires one != other && one !in db.tokens && other !in db.tokens
    ensures var first := Rotate(db.tokens, p, one, expires);
            p.user != q.user <==> AtMostOneActive(Rotate(first, q, other, expires))
  {
    RotateEffect(db, p, one, expires);
    RevokedAfterOther(db, p, q, one, expires);
    hide Sound, StillTrue, AtMostOneActive, NoneActive;
    var first := Rotate(db.tokens, p, one, expires);
    if q.Passed? {
      RevokeKeepsOneActive(first, q.hash);
    }
    InsertKeepsOneActiveIff(if q.Passed? then Revoke(first, q.hash) else first, other, q.user, expires);
  }

  /**
   Two requests past their checks can both finish with every token redeemed at most once if and only
   if they hold no common token.
   */
  lemma BothRedeemIff(s: System, a: nat, b: nat, now: real, one: string, other: string, expires: real)
    requires RedeemOk(s) && a in s.requests && b in s.requests && a != b
    requires Critical(s.requests[a]) && Critical(s.requests[b])
    requires one != other && one !in s.db.tokens && other !in s.db.tokens
    ensures var mid := Finish(s, a, now, one, expires);
            && b in mid.requests && mid.requests[b] == s.requests[b]
            && (RedeemedOnce(Finish(mid, b, now, other, expires).db.redeemed) <==>
                  forall h :: !(Holds(s.requests[a], h) && Holds(s.requests[b], h)))
  {
    hide Finish;
    var p, q := s.requests[a], s.requests[b];
    FinishEffect(s, a, now, one, expires);
    var mid := Finish(s, a, now, one, expires);
    FinishEffect(mid, b, now, other, expires);
    HeldIsRedeemed(s.db, p);
    HeldIsRedeemed(s.db, q);
    RedeemTwo(s.db.redeemed, Redeems(p), Redeems(q));
    assert mid.db.redeemed + Redeems(q) == s.db.redeemed + (Redeems(p) + Redeems(q));
    forall h ensures Holds(p, h) && Holds(q, h) <==> h in Redeems(p) && h in Redeems(q) {
    }
  }

  /** The token a request redeems when it finishes. */
  function Redeems(p: Phase): (r: seq<string>)
    ensures |r| <= 1
  {
    match p
    case Passed(h, _) => [h]
    case Issuing(_, Some(h)) => [h]
    case _ => []
  }

  lemma HeldIsRedeemed(db: State, p: Phase)
    requires HeldOk(db, p)
    ensures forall h :: Holds(p, h) <==> h in Redeems(p)
    ensures forall h | h in Redeems(p) :: h !in db.redeemed
  {
    assert forall h | h in Redeems(p) :: Holds(p, h);
  }

  lemma RedeemTwo(redeemed: seq<string>, first: seq<string>, second: seq<string>)
    requires RedeemedOnce(redeemed) && |first| <= 1 && |second| <= 1
    requires forall h | h in first || h in second :: h !in redeemed
    ensures RedeemedOnce(redeemed + (first + second)) <==> forall h | h in first :: h !in second
  {
    var all := redeemed + (first + second);
    var n := |redeemed|;
    if first != [] && second != [] && first[0] == second[0] {
      assert all[n] == first[0] && all[n + 1] == second[0];
      assert first[0] in first && first[0] in second;
    } else {
      forall i, j | 0 <= i < j < |all| ensures all[i] != all[j] {
        assert j >= n ==> all[j] in first || all[j] in second;
        assert i < n ==> all[i] in redeemed;
      }
    }
  }

  /**
   One token presented twice, both refreshes read before either writes: each would be accepted on
   its own, both are, the token is redeemed twice and its user ends with two unrevoked ones.
   */
  lemma InterleavedRefreshesBreakIt(s: System, a: nat, b: nat, presented: string, now: real,
                                    one: string, other: string, expires: real)
    requires SystemOk(s) && a in s.requests && b in s.requests && a != b
    requires s.requests[a] == Presenting(presented) == s.requests[b]
    requires presented in s.db.tokens && !s.db.tokens[presented].revoked && now <= s.db.tokens[presented].expires
    requires one != other && one !in s.db.tokens && other !in s.db.tokens
    ensures OnRefresh(s.db, presented, now, one, expires, NoFault).1.None?
    ensures OnRefresh(s.db, presented, now, other, expires, NoFault).1.None?
    ensures var read := Step(Step(s, Advance(a, now, one, expires, false)), Advance(b, now, other, expires, false));
            var user := s.db.tokens[presented].user;
            && read.db == s.db && a in read.requests && b in read.requests
            && read.requests[a] == Passed(presented, user) == read.requests[b]
            && var mid := Finish(read, a, now, one, expires);
               && b in mid.requests && mid.requests[b] == Passed(presented, user)
               && var after := Finish(mid, b, now, other, expires);
                  && after.requests[a] == Ended(None) == after.requests[b]
                  && !AtMostOneActive(after.db.tokens)
                  && after.db.redeemed == s.db.redeemed + [presented, presented]
  {
    var first := Step(s, Advance(a, now, one, expires, false));
    StepKeepsOkWhileReading(s, a, now, one, expires);
    StepKeepsOkWhileReading(first, b, now, other, expires);
    var read := Step(first, Advance(b, now, other, expires, false));
    BothFinishIff(read, a, b, now, one, other, expires);
    FinishEffect(read, a, now, one, expires);
    FinishEffect(Finish(read, a, now, one, expires), b, now, other, expires);
    assert s.db.redeemed + [presented] + [presented] == s.db.redeemed + [presented, presented];
  }

  lemma StepKeepsOkWhileReading(s: System, request: nat, now: real, hash: string, expires: real)
    requires SystemOk(s) && request in s.requests && s.requests[request].Presenting?
    ensures SystemOk(Step(s, Advance(request, now, hash, expires, false)))
  {
    NextKeepsSound(s.db, s.requests[request], now, hash, expires);
  }

  // ---------- requests run alone ----------

  /** A refresh with nothing in between; `fault` says which of its statements fails. */
  function RunRefresh(s: System, request: nat, presented: string, now: real, hash: string, expires: real, fault: Fault): System {
    var begun := Step(s, Begin(request, Presenting(presented)));
    var read := Step(begun, Advance(request, now, hash, expires, false));
    var revoked := Step(read, Advance(request, now, hash, expires, fault.AtRevoke?));
    Step(revoked, Advance(request, now, hash, expires, fault.AtUser? || fault.AtInsert?))
  }

  /** Then it does what the refresh as one step does. */
  lemma UninterruptedRefresh(s: System, request: nat, presented: string, now: real, hash: string, expires: real, fault: Fault)
    requires request !in s.requests && hash !in s.db.tokens
    ensures var after := RunRefresh(s, request, presented, now, hash, expires, fault);
            && request in after.requests && after.requests[request].Ended?
            && (after.db, after.requests[request].error) == OnRefresh(s.db, presented, now, hash, expires, fault)
  {
  }

  function RunLogin(s: System, request: nat, user: string, now: real, hash: string, expires: real, fault: Fault): System {
    var begun := Step(s, Begin(request, LoggingIn(user)));
    var revoked := Step(begun, Advance(request, now, hash, expires, fault.AtRevoke?));
    Step(revoked, Advance(request, now, hash, expires, fault.AtUser? || fault.AtInsert?))
  }

  lemma UninterruptedLogin(s: System, request: nat, user: string, now: real, hash: string, expires: real, fault: Fault)
    requires request !in s.requests && hash !in s.db.tokens && user in s.db.users
    ensures var after := RunLogin(s, request, user, now, hash, expires, fault);
            && request in after.requests && after.requests[request].Ended?
            && (after.db, after.requests[request].error) == OnLogin(s.db, user, true, hash, expires, fault)
  {
  }

  function RunRegister(s: System, request: nat, user: string, now: real, hash: string, expires: real, fault: Fault): System {
    var begun := Step(s, Begin(request, Registering(user)));
    var created := Step(begun, Advance(request, now, hash, expires, fault.AtUser?));
    Step(created, Advance(request, now, hash, expires, !fault.NoFault?))
  }

  lemma UninterruptedRegister(s: System, request: nat, user: string, now: real, hash: string, expires: real, fault: Fault)
    requires request !in s.requests && hash !in s.db.tokens && user !in s.db.users
    ensures var after := RunRegister(s, request, user, now, hash, expires, fault);
            && request in after.requests && after.requests[request].Ended?
            && (after.db, after.requests[request].error) == OnRegister(s.db, user, hash, expires, fault)
  {
  }

  function RunLogout(s: System, request: nat, presented: string, now: real, hash: string, expires: real, fault: Fault): System {
    var begun := Step(s, Begin(request, Leaving(presented)));
    var found := Step(begun, Advance(request, now, hash, expires, false));
    Step(found, Advance(request, now, hash, expires, fault.AtRevoke?))
  }

  lemma UninterruptedLogout(s: System, request: nat, presented: string, now: real, hash: string, expires: real, fault: Fault)
    requires request !in s.requests
    ensures var after := RunLogout(s, request, presented, now, hash, expires, fault);
            && request in after.requests && after.requests[request].Ended?
            && (after.db, after.requests[request].error) == OnLogout(s.db, presented, fault)
  {
  }

  /** A failed step writes nothing and ends its request; a step touches no other request. */
  lemma AdvanceEffect(s: System, request: nat, now: real, hash: string, expires: real, fault: bool)
    requires request in s.requests && hash !in s.db.tokens
    ensures var after := Step(s, Advance(request, now, hash, expires, fault));
            && after.requests.Keys == s.requests.Keys
            && (forall other | other in s.requests && other != request :: after.requests[other] == s.requests[other])
            && (fault ==> after.db == s.db && after.requests[request].Ended?)
            && (!fault ==> (after.db, after.requests[request]) == Next(s.db, s.requests[request], now, hash, expires))
  {
  }
}
