/** When a request on refresh tokens succeeds, and which rows it leaves. */
module TokenEffects {
  import opened Common
  import opened RefreshTokens

  /** The rows after every token of the user was revoked. */
  ghost predicate EndedAllOf(before: Tokens, after: Tokens, user: string) {
    forall h | h in before ::
      && h in after
      && after[h] == if before[h].user == user then Token(user, before[h].expires, true) else before[h]
  }

  /** The new token is the only row that was added. */
  ghost predicate AddedOnly(before: Tokens, after: Tokens, hash: string, token: Token) {
    after.Keys == before.Keys + {hash} && after[hash] == token
  }

  /**
   A login succeeds if and only if the user is registered, the password is right and no statement
   fails. Then the new token, with its expiry, is the only unrevoked one of the user; other users'
   rows stay. With a wrong password nothing changes.
   */
  lemma LoginIff(s: State, user: string, passwordOk: bool, hash: string, expires: real, fault: Fault)
    requires hash !in s.tokens
    ensures var (after, error) := OnLogin(s, user, passwordOk, hash, expires, fault);
            && (error.None? <==> user in s.users && passwordOk && fault.NoFault?)
            && (error == Some(InvalidCredentials) <==> user !in s.users || !passwordOk)
            && after.users == s.users && after.redeemed == s.redeemed
            && (error == Some(InvalidCredentials) || fault.AtRevoke? ==> after == s)
            && (error != Some(InvalidCredentials) && !fault.AtRevoke? ==> EndedAllOf(s.tokens, after.tokens, user))
            && (error.Some? ==> after.tokens.Keys == s.tokens.Keys)
            && (error.None? ==>
                  && AddedOnly(s.tokens, after.tokens, hash, Token(user, expires, false))
                  && forall h | h in after.tokens && after.tokens[h].user == user :: after.tokens[h].revoked <==> h != hash)
  {
  }

  /** A registration succeeds if and only if the user is new and no statement fails; its token is the user's only one. */
  lemma RegisterIff(s: State, user: string, hash: string, expires: real, fault: Fault)
    requires hash !in s.tokens
    ensures var (after, error) := OnRegister(s, user, hash, expires, fault);
            && (error.None? <==> user !in s.users && fault.NoFault?)
            && (error == Some(EmailTaken) <==> user in s.users)
            && after.redeemed == s.redeemed
            && after.users == (if user in s.users || fault.AtUser? then s.users else s.users + {user})
            && after.tokens == (if error.None? then s.tokens[hash := Token(user, expires, false)] else s.tokens)
  {
  }

  /**
   A refresh succeeds if and only if the presented token is stored, unrevoked and not past its expiry
   and no statement fails. Then that token is revoked, the new one is its user's, and no other row changed.
   */
  lemma RefreshIff(s: State, presented: string, now: real, hash: string, expires: real, fault: Fault)
    requires hash !in s.tokens
    ensures var (after, error) := OnRefresh(s, presented, now, hash, expires, fault);
            var valid := presented in s.tokens && !s.tokens[presented].revoked && now <= s.tokens[presented].expires;
            && (error.None? <==> valid && fault.NoFault?)
            && (error == Some(InvalidToken) <==> presented !in s.tokens)
            && (error == Some(TheftDetected) <==> presented in s.tokens && s.tokens[presented].revoked)
            && (error == Some(Expired) <==>
                  presented in s.tokens && !s.tokens[presented].revoked && s.tokens[presented].expires < now)
            && after.users == s.users
            && after.redeemed == (if error.None? then s.redeemed + [presented] else s.redeemed)
            && (error == Some(TheftDetected) && !fault.AtRevoke? ==>
                  EndedAllOf(s.tokens, after.tokens, s.tokens[presented].user) && after.tokens.Keys == s.tokens.Keys)
            && ((!valid && error != Some(TheftDetected)) || fault.AtRevoke? ==> after.tokens == s.tokens)
            && (valid && !fault.AtRevoke? ==>
                  var old_ := s.tokens[presented];
                  var revoked := s.tokens[presented := Token(old_.user, old_.expires, true)];
                  after.tokens == if fault.NoFault? then revoked[hash := Token(old_.user, expires, false)] else revoked)
  {
  }

  /** A logout fails only if the revocation of a stored token fails; otherwise that token is revoked and no other row changed. */
  lemma LogoutEffect(s: State, presented: string, fault: Fault)
    ensures var (after, error) := OnLogout(s, presented, fault);
            && (error.Some? <==> presented in s.tokens && fault.AtRevoke?)
            && after.users == s.users && after.redeemed == s.redeemed
            && after.tokens.Keys == s.tokens.Keys
            && (forall h | h in s.tokens && (h != presented || error.Some?) :: after.tokens[h] == s.tokens[h])
            && (presented in s.tokens && error.None? ==>
                  after.tokens[presented] == Token(s.tokens[presented].user, s.tokens[presented].expires, true))
  {
  }

  // ---------- over runs ----------

  /** After any run, a token just issued by a login is good for one refresh until it expires, and a second time it is a theft. */
  lemma IssuedTokenWorksOnce(requests: seq<Request>, user: string, hash: string, expires: real, now: real,
                             next: string, later: real, other: string)
    requires var s := ServeAll(requests); user in s.users && hash !in s.tokens && next !in s.tokens && other !in s.tokens
    requires hash != next && other != hash && other != next && now <= expires
    ensures var signedIn := ServeAll(requests + [Login(user, true, hash, expires, NoFault)]);
            && Active(signedIn.tokens, hash, user)
            && OnRefresh(signedIn, hash, now, next, later, NoFault).1.None?
            && var renewed := Serve(signedIn, Refresh(hash, now, next, later, NoFault));
               && Active(renewed.tokens, next, user) && renewed.tokens[next].expires == later
               && var again := OnRefresh(renewed, hash, now, other, later, NoFault);
                  && again.1 == Some(TheftDetected)
                  && forall h :: !Active(again.0.tokens, h, user)
  {
    hide OnLogin, OnRefresh;
    var s := ServeAll(requests);
    var login := Login(user, true, hash, expires, NoFault);
    assert (requests + [login])[..|requests|] == requests;
    LoginIff(s, user, true, hash, expires, NoFault);
    var signedIn := ServeAll(requests + [login]);
    RefreshIff(signedIn, hash, now, next, later, NoFault);
    RefreshIff(Serve(signedIn, Refresh(hash, now, next, later, NoFault)), hash, now, other, later, NoFault);
  }

  /** After any run, a token that was logged out is refused ever after as long as it is stored: the next refresh with it is a theft. */
  lemma LoggedOutTokenIsDead(requests: seq<Request>, hash: string, now: real, next: string, expires: real)
    requires hash in ServeAll(requests).tokens && next !in ServeAll(requests).tokens
    ensures var out := ServeAll(requests + [Logout(hash, NoFault)]);
            OnRefresh(out, hash, now, next, expires, NoFault).1 == Some(TheftDetected)
  {
    hide OnRefresh, OnLogout;
    var logout := Logout(hash, NoFault);
    assert (requests + [logout])[..|requests|] == requests;
    LogoutEffect(ServeAll(requests), hash, NoFault);
    RefreshIff(ServeAll(requests + [logout]), hash, now, next, expires, NoFault);
  }

  /** After any run, a new user who registers has the token issued then, and no other. */
  lemma RegisteredUserIsSignedIn(requests: seq<Request>, user: string, hash: string, expires: real)
    requires var s := ServeAll(requests); user !in s.users && hash !in s.tokens
    ensures var s := ServeAll(requests + [Register(user, hash, expires, NoFault)]);
            && user in s.users
            && hash in s.tokens && s.tokens[hash] == Token(user, expires, false)
            && forall h | h in s.tokens && s.tokens[h].user == user :: h == hash
  {
    hide OnRegister;
    var register := Register(user, hash, expires, NoFault);
    assert (requests + [register])[..|requests|] == requests;
    RegisterIff(ServeAll(requests), user, hash, expires, NoFault);
    RunKeepsSound(requests);
  }
}
