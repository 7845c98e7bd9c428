/** Properties of a single request to one of the backend's handlers. */
module ServerProperties {

  import opened Wrappers
  import opened JsStrings
  import opened PasswordPolicy
  import opened Jwt
  import opened Server

  // ---------------------------------------------------------------------------------
  // Registration

  /**
   * Missing fields and weak passwords are refused before the store is consulted: the
   * answer is the same whatever the store holds, and nothing changes.
   */
  lemma RegisterValidatesBeforeLookup(s1: State, s2: State, body: RegisterBody, hashed1: string, hashed2: string, id1: string, id2: string)
    requires !Truthy(body.username) || !Truthy(body.password) || !IsStrongPassword(body.password.value)
    ensures RegisterStep(s1, body, hashed1, id1).response == RegisterStep(s2, body, hashed2, id2).response
    ensures RegisterStep(s1, body, hashed1, id1).response.Status() == 400
    ensures RegisterStep(s1, body, hashed1, id1).state == s1
  {
  }

  /** Registering a taken username is refused with 400 and changes nothing. */
  lemma RegisterDuplicateRefused(s: State, body: RegisterBody, hashed: string, newId: string)
    requires Truthy(body.username) && Truthy(body.password) && IsStrongPassword(body.password.value)
    requires body.username.value in s.users
    ensures RegisterStep(s, body, hashed, newId) == Step(UserExists, s)
  {
  }

  // ---------------------------------------------------------------------------------
  // Login

  /** An unknown username is refused with 400 "Invalid credentials." and changes nothing. */
  lemma UnknownUserRefused(s: State, body: LoginBody, now: int, compare: Comparer, sign: Signer)
    requires Truthy(body.username) && Truthy(body.password)
    requires body.username.value !in s.users
    ensures LoginStep(s, body, now, compare, sign) == Step(InvalidCredentials, s)
    ensures LoginStep(s, body, now, compare, sign).response.Status() == 400
  {
  }

  /**
   * A locked account is refused with 423 and the remaining minutes, rounded up and at
   * least one; the record is left as it was, and the password is never looked at: the
   * answer is the same whatever the password comparison would say.
   */
  lemma LockedLoginRefused(s: State, body: LoginBody, now: int, compare: Comparer, other: Comparer, sign: Signer)
    requires Truthy(body.username) && Truthy(body.password)
    requires body.username.value in s.users && IsLocked(s.users[body.username.value], now)
    ensures var lockUntil := s.users[body.username.value].lockUntil.value;
      var r := LoginStep(s, body, now, compare, sign);
      && r.state == s
      && r.response.Status() == 423
      && r.response.AccountLocked? && r.response.lockUntil == lockUntil
      && 1 <= r.response.minutesRemaining
      && (r.response.minutesRemaining - 1) * MS_PER_MINUTE < lockUntil - now <= r.response.minutesRemaining * MS_PER_MINUTE
      && r == LoginStep(s, body, now, other, sign)
  {
  }

  /** A lock that ends exactly now no longer holds: equality counts as unlocked. */
  lemma LockEndsAtItsInstant(user: UserRecord, now: int)
    requires user.lockUntil == Some(now)
    ensures !IsLocked(user, now)
  {
  }

  /** A lock this handler sets is reported with at most 15 minutes remaining. */
  lemma FreshLockAtMostFifteenMinutes(lockedAt: int, now: int)
    requires lockedAt <= now < lockedAt + LOCK_DURATION
    ensures 1 <= MinutesRemaining(lockedAt + LOCK_DURATION, now) <= 15
  {
  }

  /**
   * A wrong password on an unlocked account adds exactly one failure. Reaching five
   * locks the account for 15 minutes from now and answers 423; below five it answers
   * 400 with the attempts left, and the lock field is untouched. `lastLogin` never changes.
   */
  lemma MismatchCountsOneFailure(s: State, body: LoginBody, now: int, compare: Comparer, sign: Signer)
    requires Truthy(body.username) && Truthy(body.password)
    requires body.username.value in s.users
    requires !IsLocked(s.users[body.username.value], now)
    requires !compare(body.password.value, s.users[body.username.value].passwordHash)
    ensures var name := body.username.value;
      var before := s.users[name];
      var r := LoginStep(s, body, now, compare, sign);
      var after := r.state.users[name];
      && after.failedAttempts == before.failedAttempts + 1
      && after.lastLogin == before.lastLogin
      && r.state.refreshTokens == s.refreshTokens
      && (after.failedAttempts >= MAX_FAILED_ATTEMPTS ==>
            after.lockUntil == Some(now + LOCK_DURATION) && r.response == LockedAfterFailures(now + LOCK_DURATION)
            && r.response.Status() == 423)
      && (after.failedAttempts < MAX_FAILED_ATTEMPTS ==>
            after.lockUntil == before.lockUntil && r.response == WrongPassword(MAX_FAILED_ATTEMPTS - after.failedAttempts)
            && r.response.Status() == 400)
  {
  }

  /**
   * The right password on an unlocked account clears the failures and the lock, records
   * the login instant, answers 200 with a fresh token pair whose refresh token joins the
   * allow-list, and leaves the denylist alone.
   */
  lemma SuccessfulLoginResets(s: State, body: LoginBody, now: int, compare: Comparer, sign: Signer)
    requires Truthy(body.username) && Truthy(body.password)
    requires body.username.value in s.users
    requires !IsLocked(s.users[body.username.value], now)
    requires compare(body.password.value, s.users[body.username.value].passwordHash)
    ensures var name := body.username.value;
      var user := s.users[name];
      var r := LoginStep(s, body, now, compare, sign);
      && r.state.users[name] == user.(failedAttempts := 0, lockUntil := None, lastLogin := Some(now))
      && r.response.LoggedIn? && r.response.Status() == 200
      && r.response.username == user.username
      && r.response.accessToken == sign(AccessSecret, ClaimsAt(user.username, user.id, now, ACCESS_TOKEN_LIFETIME))
      && r.response.refreshToken == sign(RefreshSecret, ClaimsAt(user.username, user.id, now, REFRESH_TOKEN_LIFETIME))
      && r.response.refreshToken in r.state.refreshTokens
      && r.state.blacklistedTokens == s.blacklistedTokens
  {
  }

  /**
   * The tokens `generateTokens` issues decode, under any verifier that accepts what the
   * signer made with its secret, to the user's name and id, issued in the current second,
   * living 15 minutes (access) and 7 days (refresh).
   */
  lemma GeneratedTokensDecode(user: UserRecord, now: int, sign: Signer, verifyAccess: Verifier, verifyRefresh: Verifier)
    requires forall c :: verifyAccess(sign(AccessSecret, c)) == Some(c)
    requires forall c :: verifyRefresh(sign(RefreshSecret, c)) == Some(c)
    ensures var pair := GenerateTokens(user, now, sign);
      && verifyAccess(pair.accessToken).Some?
      && IssuedFor(verifyAccess(pair.accessToken).value, user, now, ACCESS_TOKEN_LIFETIME)
      && verifyRefresh(pair.refreshToken).Some?
      && IssuedFor(verifyRefresh(pair.refreshToken).value, user, now, REFRESH_TOKEN_LIFETIME)
  {
    var pair := GenerateTokens(user, now, sign);
    var a :| pair.accessToken == sign(AccessSecret, a) && IssuedFor(a, user, now, ACCESS_TOKEN_LIFETIME);
    var r :| pair.refreshToken == sign(RefreshSecret, r) && IssuedFor(r, user, now, REFRESH_TOKEN_LIFETIME);
    assert verifyAccess(pair.accessToken) == Some(a);
    assert verifyRefresh(pair.refreshToken) == Some(r);
  }

  /**
   * "Remember me" changes only the reported `expiresIn` (a week instead of 15 minutes);
   * the tokens, their lifetimes and the new state are the same either way.
   */
  lemma RememberMeOnlyChangesExpiresIn(s: State, body: LoginBody, now: int, compare: Comparer, sign: Signer)
    ensures var remembered := LoginStep(s, body.(rememberMe := true), now, compare, sign);
      var plain := LoginStep(s, body.(rememberMe := false), now, compare, sign);
      && remembered.state == plain.state
      && remembered.response.LoggedIn? == plain.response.LoggedIn?
      && (remembered.response.LoggedIn? ==>
            && remembered.response.accessToken == plain.response.accessToken
            && remembered.response.refreshToken == plain.response.refreshToken
            && remembered.response.expiresIn == REFRESH_TOKEN_LIFETIME * 1000
            && plain.response.expiresIn == ACCESS_TOKEN_LIFETIME * 1000)
  {
  }

  /**
   * Once a lock has run out the failure count is still at least five, so the next wrong
   * password locks the account again at once.
   */
  lemma ExpiredLockRelocksOnMismatch(s: State, body: LoginBody, now: int, compare: Comparer, sign: Signer)
    requires Inv(s)
    requires Truthy(body.username) && Truthy(body.password)
    requires body.username.value in s.users
    requires s.users[body.username.value].lockUntil.Some? && s.users[body.username.value].lockUntil.value <= now
    requires !compare(body.password.value, s.users[body.username.value].passwordHash)
    ensures LoginStep(s, body, now, compare, sign).response == LockedAfterFailures(now + LOCK_DURATION)
  {
  }

  /**
   * The answers to an unknown username and to a wrong password differ: the latter
   * carries the attempts left (or the new lock), the former does not.
   */
  lemma UnknownUserDistinguishable(s: State, unknown: LoginBody, known: LoginBody, now: int, compare: Comparer, sign: Signer)
    requires Truthy(unknown.username) && Truthy(unknown.password) && unknown.username.value !in s.users
    requires Truthy(known.username) && Truthy(known.password) && known.username.value in s.users
    requires !IsLocked(s.users[known.username.value], now)
    requires !compare(known.password.value, s.users[known.username.value].passwordHash)
    ensures LoginStep(s, unknown, now, compare, sign).response != LoginStep(s, known, now, compare, sign).response
  {
  }

  /**
   * Two successful logins of one account within the same second receive the very same
   * token pair, since the signed claims are the same.
   */
  lemma SameSecondLoginsShareTokens(s: State, body: LoginBody, now1: int, now2: int, compare: Comparer, sign: Signer)
    requires now1 / 1000 == now2 / 1000
    requires LoginStep(s, body, now1, compare, sign).response.LoggedIn?
    requires LoginStep(s, body, now2, compare, sign).response.LoggedIn?
    ensures LoginStep(s, body, now1, compare, sign).response.accessToken == LoginStep(s, body, now2, compare, sign).response.accessToken
    ensures LoginStep(s, body, now1, compare, sign).response.refreshToken == LoginStep(s, body, now2, compare, sign).response.refreshToken
  {
  }

  // ---------------------------------------------------------------------------------
  // Logout

  /** Logging out twice with the same request leaves the same sets as logging out once. */
  lemma LogoutIdempotent(s: State, authorization: Option<string>, refreshToken: Option<string>)
    ensures var once := LogoutStep(s, authorization, refreshToken).state;
      LogoutStep(once, authorization, refreshToken).state == once
  {
  }
}
