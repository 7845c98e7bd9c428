/**
 * Sequences of requests against the backend: what stays true across any later traffic
 * once an account is locked, an access token revoked or a refresh token withdrawn.
 */
module Lifecycle {

  import opened Wrappers
  import opened JsStrings
  import opened Headers
  import opened Jwt
  import opened Server
  import opened AuthMiddleware

  /** One request with the oracle answers it meets (clock, bcrypt, JWT library). */
  datatype Request =
    | RegisterRequest(registerBody: RegisterBody, hashed: string, newId: string)
    | LoginRequest(loginBody: LoginBody, loginNow: int, compare: Comparer, loginSign: Signer)
    | RefreshRequest(presented: Option<string>, refreshNow: int, verifyRefresh: Verifier, refreshSign: Signer)
    | LogoutRequest(authorization: Option<string>, withdrawn: Option<string>)

  function Apply(s: State, req: Request): State {
    match req
    case RegisterRequest(body, hashed, newId) => RegisterStep(s, body, hashed, newId).state
    case LoginRequest(body, now, compare, sign) => LoginStep(s, body, now, compare, sign).state
    case RefreshRequest(token, now, verify, sign) => RefreshStep(s, token, now, verify, sign).state
    case LogoutRequest(authorization, token) => LogoutStep(s, authorization, token).state
  }

  /** The state after handling `reqs` in order. */
  function Run(s: State, reqs: seq<Request>): State
    decreases |reqs|
  {
    if reqs == [] then s else Run(Apply(s, reqs[0]), reqs[1..])
  }

  lemma {:induction false} RunAppend(s: State, reqs: seq<Request>, req: Request)
    ensures Run(s, reqs + [req]) == Apply(Run(s, reqs), req)
    decreases |reqs|
  {
    if reqs == [] {
      assert [] + [req] == [req];
    } else {
      assert (reqs + [req])[1..] == reqs[1..] + [req];
      RunAppend(Apply(s, reqs[0]), reqs[1..], req);
    }
  }

  /** Every sequence of requests keeps the store invariant. */
  lemma {:induction false} RunPreservesInv(s: State, reqs: seq<Request>)
    requires Inv(s)
    ensures Inv(Run(s, reqs))
    decreases |reqs|
  {
    if reqs != [] {
      RunPreservesInv(Apply(s, reqs[0]), reqs[1..]);
    }
  }

  // ---------------------------------------------------------------------------------
  // Access-token revocation

  /** Nothing ever leaves the denylist. */
  lemma {:induction false} RevokedStaysRevoked(s: State, reqs: seq<Request>, token: string)
    requires token in s.blacklistedTokens
    ensures token in Run(s, reqs).blacklistedTokens
    decreases |reqs|
  {
    if reqs != [] {
      RevokedStaysRevoked(Apply(s, reqs[0]), reqs[1..], token);
    }
  }

  /**
   * After a logout carrying a bearer value, the middleware refuses every later header
   * with that bearer value, whatever traffic came in between and whatever the verifier says.
   */
  lemma LogoutRevokesForever(
    s: State, authorization: Option<string>, withdrawn: Option<string>, later: seq<Request>,
    header: Option<string>, verify: Verifier)
    requires BearerToken(authorization).Some?
    requires BearerToken(header) == BearerToken(authorization)
    ensures var revoked := Run(LogoutStep(s, authorization, withdrawn).state, later);
      Authenticate(header, revoked.blacklistedTokens, verify).Unauthorized?
  {
    RevokedStaysRevoked(LogoutStep(s, authorization, withdrawn).state, later, BearerToken(authorization).value);
  }

  /** The same for the usual header `"Bearer " + token`. */
  lemma BearerLogoutRevokesForever(s: State, token: string, withdrawn: Option<string>, later: seq<Request>, verify: Verifier)
    requires token != "" && ' ' !in token
    ensures var header := Some("Bearer " + token);
      var revoked := Run(LogoutStep(s, header, withdrawn).state, later);
      Authenticate(header, revoked.blacklistedTokens, verify).Unauthorized?
  {
    BearerTokenOf("Bearer", token, []);
    assert "Bearer" + " " + token + [] == "Bearer " + token;
    LogoutRevokesForever(s, Some("Bearer " + token), withdrawn, later, Some("Bearer " + token), verify);
  }

  // ---------------------------------------------------------------------------------
  // Refresh-token allow-list

  /** `req`, handled in state `s`, is a successful login that issued refresh token `token`. */
  predicate IssuesRefreshToken(s: State, req: Request, token: string) {
    && req.LoginRequest?
    && var r := LoginStep(s, req.loginBody, req.loginNow, req.compare, req.loginSign).response;
       r.LoggedIn? && r.refreshToken == token
  }

  /** A request adds a refresh token to the allow-list only by a login issuing it. */
  lemma AllowListGrowsOnlyByLogin(s: State, req: Request, token: string)
    requires token !in s.refreshTokens && token in Apply(s, req).refreshTokens
    ensures IssuesRefreshToken(s, req, token)
  {
  }

  /**
   * A refresh token that is in the allow-list after a sequence of requests, and was not
   * before, was issued by one of the logins of that sequence.
   */
  lemma {:induction false} RefreshTokenComesFromLogin(s: State, reqs: seq<Request>, token: string)
    requires token !in s.refreshTokens && token in Run(s, reqs).refreshTokens
    ensures exists i :: 0 <= i < |reqs| && IssuesRefreshToken(Run(s, reqs[..i]), reqs[i], token)
    decreases |reqs|
  {
    var n := |reqs| - 1;
    assert reqs == reqs[..n] + [reqs[n]];
    RunAppend(s, reqs[..n], reqs[n]);
    var before := Run(s, reqs[..n]);
    if token in before.refreshTokens {
      RefreshTokenComesFromLogin(s, reqs[..n], token);
      var i :| 0 <= i < n && IssuesRefreshToken(Run(s, reqs[..n][..i]), reqs[..n][i], token);
      assert reqs[..n][..i] == reqs[..i];
    } else {
      AllowListGrowsOnlyByLogin(before, reqs[n], token);
    }
  }

  /**
   * A non-empty refresh token outside the allow-list can never again mint an access
   * token, unless a later login issues that very token anew.
   */
  lemma OutsideAllowListCannotMint(s: State, token: string, later: seq<Request>, now: int, verify: Verifier, sign: Signer)
    requires token != "" && token !in s.refreshTokens
    requires forall i :: 0 <= i < |later| ==> !IssuesRefreshToken(Run(s, later[..i]), later[i], token)
    ensures RefreshStep(Run(s, later), Some(token), now, verify, sign).response == InvalidRefreshToken
  {
    if token in Run(s, later).refreshTokens {
      RefreshTokenComesFromLogin(s, later, token);
    }
  }

  /** A refresh token withdrawn at logout: the first of the two ways out of the allow-list. */
  lemma WithdrawnRefreshTokenCannotMint(
    s: State, authorization: Option<string>, token: string, later: seq<Request>,
    now: int, verify: Verifier, sign: Signer)
    requires token != ""
    requires var out := LogoutStep(s, authorization, Some(token)).state;
      forall i :: 0 <= i < |later| ==> !IssuesRefreshToken(Run(out, later[..i]), later[i], token)
    ensures var out := LogoutStep(s, authorization, Some(token)).state;
      RefreshStep(Run(out, later), Some(token), now, verify, sign).response == InvalidRefreshToken
  {
    OutsideAllowListCannotMint(LogoutStep(s, authorization, Some(token)).state, token, later, now, verify, sign);
  }

  /**
   * A refresh token that failed verification: the second way out of the allow-list.
   * Presented again later, even to a verifier that now accepts it, it still gets 403.
   */
  lemma RejectedRefreshTokenCannotMint(
    s: State, token: string, now: int, verify: Verifier, sign: Signer,
    later: seq<Request>, laterNow: int, laterVerify: Verifier, laterSign: Signer)
    requires token != "" && RefreshStep(s, Some(token), now, verify, sign).response == InvalidRefreshToken
    requires var out := RefreshStep(s, Some(token), now, verify, sign).state;
      forall i :: 0 <= i < |later| ==> !IssuesRefreshToken(Run(out, later[..i]), later[i], token)
    ensures var out := RefreshStep(s, Some(token), now, verify, sign).state;
      RefreshStep(Run(out, later), Some(token), laterNow, laterVerify, laterSign).response == InvalidRefreshToken
  {
    OutsideAllowListCannotMint(RefreshStep(s, Some(token), now, verify, sign).state, token, later, laterNow, laterVerify, laterSign);
  }

  // ---------------------------------------------------------------------------------
  // Lockout

  /** The same wrong password, tried at several instants. */
  predicate WrongPasswordRun(s: State, reqs: seq<Request>, name: string, password: string) {
    && name in s.users && name != "" && password != ""
    && forall i :: 0 <= i < |reqs| ==>
      && reqs[i].LoginRequest?
      && reqs[i].loginBody.username == Some(name)
      && reqs[i].loginBody.password == Some(password)
      && !reqs[i].compare(password, s.users[name].passwordHash)
  }

  /**
   * Up to four consecutive wrong passwords on an unlocked account only count up: the
   * account stays unlocked and keeps its digest.
   */
  lemma {:induction false} MismatchesAccumulate(s: State, reqs: seq<Request>, name: string, password: string)
    requires WrongPasswordRun(s, reqs, name, password)
    requires s.users[name].lockUntil.None?
    requires s.users[name].failedAttempts + |reqs| < MAX_FAILED_ATTEMPTS
    ensures name in Run(s, reqs).users
    ensures Run(s, reqs).users[name].failedAttempts == s.users[name].failedAttempts + |reqs|
    ensures Run(s, reqs).users[name].lockUntil.None?
    ensures Run(s, reqs).users[name].passwordHash == s.users[name].passwordHash
    decreases |reqs|
  {
    if reqs != [] {
      var next := Apply(s, reqs[0]);
      assert SameAccount(s.users[name], next.users[name]);
      assert WrongPasswordRun(next, reqs[1..], name, password) by {
        forall i | 0 <= i < |reqs[1..]|
          ensures !reqs[1..][i].compare(password, next.users[name].passwordHash)
        {
          assert reqs[1..][i] == reqs[i + 1];
        }
      }
      MismatchesAccumulate(next, reqs[1..], name, password);
    }
  }

  /**
   * A lock holds until its instant: whatever other requests come in, as long as every
   * login of the locked account is tried before the lock ends, its record is unchanged.
   */
  lemma {:induction false} LockHoldsUntilItEnds(s: State, reqs: seq<Request>, name: string, lockEnd: int)
    requires name in s.users && s.users[name].lockUntil == Some(lockEnd)
    requires forall i :: 0 <= i < |reqs| && reqs[i].LoginRequest? && reqs[i].loginBody.username == Some(name) ==>
      reqs[i].loginNow < lockEnd
    ensures name in Run(s, reqs).users && Run(s, reqs).users[name] == s.users[name]
    decreases |reqs|
  {
    if reqs != [] {
      var next := Apply(s, reqs[0]);
      assert name in next.users && next.users[name] == s.users[name];
      forall i | 0 <= i < |reqs[1..]| && reqs[1..][i].LoginRequest? && reqs[1..][i].loginBody.username == Some(name)
        ensures reqs[1..][i].loginNow < lockEnd
      {
        assert reqs[1..][i] == reqs[i + 1];
      }
      LockHoldsUntilItEnds(next, reqs[1..], name, lockEnd);
    }
  }

  /**
   * From a fresh record, four wrong passwords leave the account unlocked and the fifth
   * locks it for 15 minutes. Until then every attempt, even with the right password and
   * after any other requests, is refused with 423.
   */
  lemma FifthMismatchLocks(
    s: State, name: string, password: string, firstFour: seq<Request>, fifth: Request,
    afterwards: seq<Request>, attempt: LoginBody, later: int, compare: Comparer, sign: Signer)
    requires fifth.LoginRequest?
    requires WrongPasswordRun(s, firstFour + [fifth], name, password)
    requires s.users[name].failedAttempts == 0 && s.users[name].lockUntil.None?
    requires |firstFour| == 4
    requires forall i :: 0 <= i < |afterwards| && afterwards[i].LoginRequest? && afterwards[i].loginBody.username == Some(name) ==>
      afterwards[i].loginNow < fifth.loginNow + LOCK_DURATION
    requires attempt.username == Some(name) && Truthy(attempt.password)
    requires fifth.loginNow <= later < fifth.loginNow + LOCK_DURATION
    ensures var four := Run(s, firstFour);
      && name in four.users
      && !IsLocked(four.users[name], fifth.loginNow)
      && LoginStep(four, fifth.loginBody, fifth.loginNow, fifth.compare, fifth.loginSign).response
           == LockedAfterFailures(fifth.loginNow + LOCK_DURATION)
    ensures var after := Run(Run(s, firstFour + [fifth]), afterwards);
      LoginStep(after, attempt, later, compare, sign).response.AccountLocked?
  {
    var all := firstFour + [fifth];
    assert WrongPasswordRun(s, firstFour, name, password) by {
      forall i | 0 <= i < |firstFour| ensures all[i] == firstFour[i] { }
    }
    MismatchesAccumulate(s, firstFour, name, password);
    assert all[4] == fifth;
    var four := Run(s, firstFour);
    assert WrongPasswordRun(four, [fifth], name, password);
    FifthMismatchSetsLock(four, name, password, fifth);
    RunAppend(s, firstFour, fifth);
    LockedUntilItEnds(Run(s, all), afterwards, name, fifth.loginNow + LOCK_DURATION, attempt, later, compare, sign);
  }

  /** A fifth wrong password on an unlocked account with four failures locks it for 15 minutes. */
  lemma FifthMismatchSetsLock(four: State, name: string, password: string, fifth: Request)
    requires fifth.LoginRequest? && WrongPasswordRun(four, [fifth], name, password)
    requires four.users[name].failedAttempts == 4 && four.users[name].lockUntil.None?
    ensures !IsLocked(four.users[name], fifth.loginNow)
    ensures LoginStep(four, fifth.loginBody, fifth.loginNow, fifth.compare, fifth.loginSign).response
      == LockedAfterFailures(fifth.loginNow + LOCK_DURATION)
    ensures var five := Apply(four, fifth);
      name in five.users && five.users[name].lockUntil == Some(fifth.loginNow + LOCK_DURATION)
  {
    assert [fifth][0] == fifth;
  }

  /** Every login of a locked account before its lock ends, after any requests, gets 423. */
  lemma LockedUntilItEnds(
    s: State, reqs: seq<Request>, name: string, lockEnd: int,
    attempt: LoginBody, later: int, compare: Comparer, sign: Signer)
    requires name in s.users && s.users[name].lockUntil == Some(lockEnd)
    requires forall i :: 0 <= i < |reqs| && reqs[i].LoginRequest? && reqs[i].loginBody.username == Some(name) ==>
      reqs[i].loginNow < lockEnd
    requires name != "" && attempt.username == Some(name) && Truthy(attempt.password) && later < lockEnd
    ensures LoginStep(Run(s, reqs), attempt, later, compare, sign).response.AccountLocked?
  {
    LockHoldsUntilItEnds(s, reqs, name, lockEnd);
  }

  /**
   * Only a successful login lowers an account's failure count: no other request, and no
   * other kind of login answer, ever does.
   */
  lemma CounterLowersOnlyOnSuccess(s: State, req: Request, name: string)
    requires name in s.users
    requires Apply(s, req).users[name].failedAttempts < s.users[name].failedAttempts
    ensures req.LoginRequest? && req.loginBody.username == Some(name)
    ensures LoginStep(s, req.loginBody, req.loginNow, req.compare, req.loginSign).response.LoggedIn?
  {
  }
}
