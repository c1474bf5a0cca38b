/**
 Refresh-token rotation, one request at a time. Tokens are identified by their hash, taken to be
 injective, and every issued token is new. `Fault` says which database step of a request fails.
 */
module RefreshTokens {
  import opened Common

  datatype Token = Token(user: string, expires: real, revoked: bool)

  type Tokens = map<string, Token>

  datatype Error = EmailTaken | InvalidCredentials | InvalidToken | TheftDetected | Expired | Unavailable

  /** The failing step: the (first) revocation, the user row, or the insert of the new token. */
  datatype Fault = NoFault | AtRevoke | AtUser | AtInsert

  /** `users` are the registered ones; `redeemed` lists the tokens Refresh exchanged successfully. */
  datatype State = State(users: set<string>, tokens: Tokens, redeemed: seq<string>)

  // ---------- statements ----------

  function Revoke(tokens: Tokens, hash: string): Tokens {
    if hash in tokens then tokens[hash := tokens[hash].(revoked := true)] else tokens
  }

  function RevokeAllForUser(tokens: Tokens, user: string): Tokens {
    map h | h in tokens :: if tokens[h].user == user then tokens[h].(revoked := true) else tokens[h]
  }

  /** The unique index on the hash rejects a second token with the same one. */
  function Insert(tokens: Tokens, hash: string, user: string, expires: real): Tokens {
    if hash in tokens then tokens else tokens[hash := Token(user, expires, false)]
  }

  // ---------- requests ----------

  datatype Request =
    | Register(user: string, hash: string, expires: real, fault: Fault)
    | Login(user: string, passwordOk: bool, hash: string, expires: real, fault: Fault)
    | Refresh(presented: string, now: real, hash: string, expires: real, fault: Fault)
    | Logout(presented: string, fault: Fault)

  /** Register, up to and including the new token. */
  function OnRegister(s: State, user: string, hash: string, expires: real, fault: Fault): (State, Option<Error>) {
    if user in s.users then (s, Some(EmailTaken))
    else if fault.AtUser? then (s, Some(Unavailable))
    else
      var created := s.(users := s.users + {user});
      if !fault.NoFault? then (created, Some(Unavailable))
      else (created.(tokens := Insert(s.tokens, hash, user, expires)), None)
  }

  function OnLogin(s: State, user: string, passwordOk: bool, hash: string, expires: real, fault: Fault): (State, Option<Error>) {
    if user !in s.users || !passwordOk then (s, Some(InvalidCredentials))
    else if fault.AtRevoke? then (s, Some(Unavailable))
    else
      var revoked := RevokeAllForUser(s.tokens, user);
      if !fault.NoFault? then (s.(tokens := revoked), Some(Unavailable))
      else (s.(tokens := Insert(revoked, hash, user, expires)), None)
  }

  function OnRefresh(s: State, presented: string, now: real, hash: string, expires: real, fault: Fault): (State, Option<Error>) {
    if presented !in s.tokens then (s, Some(InvalidToken))
    else
      var stored := s.tokens[presented];
      if stored.revoked then
        // the error of this revocation is ignored
        (if fault.AtRevoke? then s else s.(tokens := RevokeAllForUser(s.tokens, stored.user)), Some(TheftDetected))
      else if now > stored.expires then (s, Some(Expired))
      else if fault.AtRevoke? then (s, Some(Unavailable))
      else
        var revoked := Revoke(s.tokens, presented);
        if !fault.NoFault? then (s.(tokens := revoked), Some(Unavailable))
        else (s.(tokens := Insert(revoked, hash, stored.user, expires), redeemed := s.redeemed + [presented]), None)
  }

  function OnLogout(s: State, presented: string, fault: Fault): (State, Option<Error>) {
    if presented !in s.tokens then (s, None)
    else if fault.AtRevoke? then (s, Some(Unavailable))
    else (s.(tokens := Revoke(s.tokens, presented)), None)
  }

  /** New tokens are new: a request whose hash was issued before does not happen. */
  predicate Enabled(s: State, r: Request) {
    r.Logout? || r.hash !in s.tokens
  }

  function Serve(s: State, r: Request): State {
    if !Enabled(s, r) then s else
    match r
    case Register(user, hash, expires, fault) => OnRegister(s, user, hash, expires, fault).0
    case Login(user, ok, hash, expires, fault) => OnLogin(s, user, ok, hash, expires, fault).0
    case Refresh(presented, now, hash, expires, fault) => OnRefresh(s, presented, now, hash, expires, fault).0
    case Logout(presented, fault) => OnLogout(s, presented, fault).0
  }

  function ServeAll(requests: seq<Request>): State {
    if requests == [] then State({}, map[], [])
    else Serve(ServeAll(requests[..|requests| - 1]), requests[|requests| - 1])
  }

  // ---------- the service ----------

  class AuthService {
    var users: set<string>
    var tokens: Tokens
    ghost var redeemed: seq<string>

    ghost function View(): State
      reads this
    {
      State(users, tokens, redeemed)
    }

    /** GenerateRefreshToken and Create: the row of the new token. */
    method IssueTokenPair(user: string, hash: string, expires: real, fault: bool) returns (error: Option<Error>)
      requires hash !in tokens
      modifies this`tokens
      ensures error == if fault then Some(Unavailable) else None
      ensures tokens == if fault then old(tokens) else Insert(old(tokens), hash, user, expires)
    {
      if fault {
        return Some(Unavailable);
      }
      tokens := tokens[hash := Token(user, expires, false)];
      return None;
    }

    method Register(user: string, hash: string, expires: real, fault: Fault) returns (error: Option<Error>)
      requires hash !in tokens
      modifies this
      ensures (View(), error) == OnRegister(old(View()), user, hash, expires, fault)
    {
      if user in users {
        return Some(EmailTaken);
      }
      if fault.AtUser? {
        return Some(Unavailable);
      }
      users := users + {user};
      error := IssueTokenPair(user, hash, expires, !fault.NoFault?);
    }

    method Login(user: string, passwordOk: bool, hash: string, expires: real, fault: Fault) returns (error: Option<Error>)
      requires hash !in tokens
      modifies this`tokens
      ensures (View(), error) == OnLogin(old(View()), user, passwordOk, hash, expires, fault)
    {
      if user !in users || !passwordOk {
        return Some(InvalidCredentials);
      }
      if fault.AtRevoke? {
        return Some(Unavailable);
      }
      tokens := RevokeAllForUser(tokens, user);
      error := IssueTokenPair(user, hash, expires, !fault.NoFault?);
    }

    /** An unknown token is not an error. */
    method Logout(presented: string, fault: Fault) returns (error: Option<Error>)
      modifies this`tokens
      ensures (View(), error) == OnLogout(old(View()), presented, fault)
    {
      if presented !in tokens {
        return None;
      }
      if fault.AtRevoke? {
        return Some(Unavailable);
      }
      tokens := tokens[presented := tokens[presented].(revoked := true)];
      return None;
    }

    method Refresh(presented: string, now: real, hash: string, expires: real, fault: Fault) returns (error: Option<Error>)
      requires hash !in tokens
      modifies this`tokens, this`redeemed
      ensures (View(), error) == OnRefresh(old(View()), presented, now, hash, expires, fault)
    {
      if presented !in tokens {
        return Some(InvalidToken);
      }
      var stored := tokens[presented];
      if stored.revoked {
        if !fault.AtRevoke? {
          tokens := RevokeAllForUser(tokens, stored.user);
        }
        return Some(TheftDetected);
      }
      if now > stored.expires {
        return Some(Expired);
      }
      if fault.AtRevoke? {
        return Some(Unavailable);
      }
      tokens := tokens[presented := stored.(revoked := true)];
      if fault.AtUser? {
        return Some(Unavailable);
      }
      error := IssueTokenPair(stored.user, hash, expires, fault.AtInsert?);
      if error.None? {
        redeemed := redeemed + [presented];
      }
    }
  }

  // ---------- what every run keeps ----------

  predicate Active(tokens: Tokens, hash: string, user: string) {
    hash in tokens && tokens[hash].user == user && !tokens[hash].revoked
  }

  ghost predicate NoneActive(tokens: Tokens, user: string) {
    forall h | h in tokens :: !Active(tokens, h, user)
  }

  ghost predicate AtMostOneActive(tokens: Tokens) {
    forall a, b | a in tokens && b in tokens && tokens[a].user == tokens[b].user && !tokens[a].revoked && !tokens[b].revoked ::
      a == b
  }

  ghost predicate Sound(s: State) {
    && AtMostOneActive(s.tokens)
    && (forall h | h in s.tokens :: s.tokens[h].user in s.users)
    && (forall i | 0 <= i < |s.redeemed| :: s.redeemed[i] in s.tokens && s.tokens[s.redeemed[i]].revoked)
    && (forall i, j | 0 <= i < j < |s.redeemed| :: s.redeemed[i] != s.redeemed[j])
  }

  lemma RevokingKeepsSound(s: State, hash: string, user: string)
    requires Sound(s)
    ensures Sound(s.(tokens := Revoke(s.tokens, hash))) && Sound(s.(tokens := RevokeAllForUser(s.tokens, user)))
    ensures NoneActive(RevokeAllForUser(s.tokens, user), user)
    ensures Active(s.tokens, hash, user) ==> NoneActive(Revoke(s.tokens, hash), user)
  {
  }

  lemma IssuingKeepsSound(s: State, hash: string, user: string, expires: real)
    requires Sound(s) && hash !in s.tokens && user in s.users && NoneActive(s.tokens, user)
    ensures Sound(s.(tokens := Insert(s.tokens, hash, user, expires)))
  {
    InsertKeepsOneActiveIff(s.tokens, hash, user, expires);
    hide AtMostOneActive, NoneActive;
  }

  lemma RedeemingKeepsSound(s: State, presented: string)
    requires Sound(s) && presented in s.tokens && s.tokens[presented].revoked && presented !in s.redeemed
    ensures Sound(s.(redeemed := s.redeemed + [presented]))
  {
    hide AtMostOneActive;
  }

  lemma RegisterKeepsSound(s: State, user: string)
    requires Sound(s) && user !in s.users
    ensures Sound(s.(users := s.users + {user})) && NoneActive(s.tokens, user)
  {
    hide AtMostOneActive;
  }

  lemma ServeKeepsSound(s: State, r: Request)
    requires Sound(s)
    ensures Sound(Serve(s, r))
  {
    if Enabled(s, r) {
      match r
      case Register(user, hash, expires, _) =>
        hide Sound, Insert, NoneActive;
        if user !in s.users {
          RegisterKeepsSound(s, user);
          IssuingKeepsSound(s.(users := s.users + {user}), hash, user, expires);
        }
      case Login(user, _, hash, expires, _) =>
        hide Sound, Insert, NoneActive;
        RevokingKeepsSound(s, hash, user);
        if user in s.users {
          IssuingKeepsSound(s.(tokens := RevokeAllForUser(s.tokens, user)), hash, user, expires);
        }
      case Refresh(presented, _, hash, expires, _) =>
        hide NoneActive, AtMostOneActive;
        if presented in s.tokens {
          var user := s.tokens[presented].user;
          RevokingKeepsSound(s, presented, user);
          if !s.tokens[presented].revoked {
            var revoked := s.(tokens := Revoke(s.tokens, presented));
            RedeemingKeepsSound(revoked, presented);
            IssuingKeepsSound(revoked.(redeemed := s.redeemed + [presented]), hash, user, expires);
          }
        }
      case Logout(presented, _) =>
        RevokingKeepsSound(s, presented, "");
    }
  }

  lemma {:induction false} RunKeepsSound(requests: seq<Request>)
    ensures Sound(ServeAll(requests))
  {
    hide Serve;
    if requests != [] {
      RunKeepsSound(requests[..|requests| - 1]);
      ServeKeepsSound(ServeAll(requests[..|requests| - 1]), requests[|requests| - 1]);
    }
  }

  /**
   Over every serial run, whatever fails on the way, a user has at most one unrevoked token and no
   token is redeemed twice.
   */
  lemma RotationOverRuns(requests: seq<Request>, user: string, a: string, b: string)
    ensures var s := ServeAll(requests);
            && (Active(s.tokens, a, user) && Active(s.tokens, b, user) ==> a == b)
            && (forall i, j | 0 <= i < j < |s.redeemed| :: s.redeemed[i] != s.redeemed[j])
            && (forall i | 0 <= i < |s.redeemed| :: s.redeemed[i] in s.tokens && s.tokens[s.redeemed[i]].revoked)
  {
    hide ServeAll;
    RunKeepsSound(requests);
  }

  /** Presenting a stored revoked token leaves its user without any if and only if the revocation works or there was none. */
  lemma TheftLeavesNoneIff(s: State, presented: string, now: real, hash: string, expires: real, fault: Fault)
    requires presented in s.tokens && s.tokens[presented].revoked
    ensures var user := s.tokens[presented].user;
            var (after, error) := OnRefresh(s, presented, now, hash, expires, fault);
            && error == Some(TheftDetected)
            && ((forall h :: !Active(after.tokens, h, user)) <==> !fault.AtRevoke? || forall h :: !Active(s.tokens, h, user))
  {
    if !fault.AtRevoke? {
      var user := s.tokens[presented].user;
      forall h ensures !Active(RevokeAllForUser(s.tokens, user), h, user) {
      }
    }
  }

  /** Issuing a token keeps every user at one unrevoked token if and only if its user has none just then. */
  lemma InsertKeepsOneActiveIff(tokens: Tokens, hash: string, user: string, expires: real)
    requires AtMostOneActive(tokens) && hash !in tokens
    ensures AtMostOneActive(Insert(tokens, hash, user, expires)) <==> NoneActive(tokens, user)
  {
    var after := Insert(tokens, hash, user, expires);
    if !NoneActive(tokens, user) {
      var h :| h in tokens && Active(tokens, h, user);
      assert h in after && hash in after && h != hash;
    }
  }
}
