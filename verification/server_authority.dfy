/**
 * The backend process as an object: the user store and the two module-level token sets
 * are fields, and each handler updates them step by step, as the source does. Every
 * handler is proved to leave exactly the state, and give exactly the answer, that the
 * corresponding step function of module Server describes.
 */
module ServerAuthority {

  import opened Wrappers
  import opened JsStrings
  import opened Headers
  import opened PasswordPolicy
  import opened Jwt
  import opened Server

  class Authority {
    /** The user collection, keyed by username */
    var users: map<string, UserRecord>
    /** `blacklistedTokens`: revoked access tokens */
    var blacklistedTokens: set<string>
    /** `refreshTokens`: refresh tokens currently honoured */
    var refreshTokens: set<string>

    function Snapshot(): State
      reads this
    {
      State(users, blacklistedTokens, refreshTokens)
    }

    ghost predicate Valid()
      reads this
    {
      Inv(Snapshot())
    }

    /** Process start: the store is whatever the database holds, both sets are empty. */
    constructor (stored: map<string, UserRecord>)
      requires Inv(State(stored, {}, {}))
      ensures Valid()
      ensures Snapshot() == State(stored, {}, {})
    {
      users := stored;
      blacklistedTokens := {};
      refreshTokens := {};
    }

    method Register(body: RegisterBody, hashed: string, newId: string) returns (response: RegisterResponse)
      requires Valid()
      modifies this
      ensures Valid()
      ensures Step(response, Snapshot()) == RegisterStep(old(Snapshot()), body, hashed, newId)
    {
      if !Truthy(body.username) || !Truthy(body.password) {
        return RegisterFieldsRequired;
      }
      if !IsStrongPassword(body.password.value) {
        return WeakPassword;
      }
      var username := body.username.value;
      if username in users {
        return UserExists;
      }
      var user := UserRecord(newId, username, hashed, 0, None, None);
      users := users[username := user];
      return Registered;
    }

    method Login(body: LoginBody, now: int, compare: Comparer, sign: Signer) returns (response: LoginResponse)
      requires Valid()
      modifies this
      ensures Valid()
      ensures Step(response, Snapshot()) == LoginStep(old(Snapshot()), body, now, compare, sign)
    {
      if !Truthy(body.username) || !Truthy(body.password) {
        return LoginFieldsRequired;
      }
      var username, password := body.username.value, body.password.value;
      if username !in users {
        return InvalidCredentials;
      }
      var user := users[username];
      if user.lockUntil.Some? && user.lockUntil.value > now {
        var minutes := MinutesRemaining(user.lockUntil.value, now);
        return AccountLocked(minutes, user.lockUntil.value);
      }
      var isMatch := compare(password, user.passwordHash);
      if !isMatch {
        user := user.(failedAttempts := user.failedAttempts + 1);
        if user.failedAttempts >= MAX_FAILED_ATTEMPTS {
          user := user.(lockUntil := Some(now + LOCK_DURATION));
          users := users[username := user];
          return LockedAfterFailures(user.lockUntil.value);
        }
        users := users[username := user];
        return WrongPassword(MAX_FAILED_ATTEMPTS - user.failedAttempts);
      }
      user := user.(failedAttempts := 0);
      user := user.(lockUntil := None);
      user := user.(lastLogin := Some(now));
      users := users[username := user];
      var tokens := GenerateTokens(user, now, sign);
      refreshTokens := refreshTokens + {tokens.refreshToken};
      response := LoggedIn(tokens.accessToken, tokens.refreshToken, user.username, ExpiresIn(body.rememberMe), body.rememberMe);
    }

    method Refresh(refreshToken: Option<string>, now: int, verify: Verifier, sign: Signer) returns (response: RefreshResponse)
      requires Valid()
      modifies this
      ensures Valid()
      ensures Step(response, Snapshot()) == RefreshStep(old(Snapshot()), refreshToken, now, verify, sign)
    {
      if !Truthy(refreshToken) {
        return RefreshTokenRequired;
      }
      var token := refreshToken.value;
      if token !in refreshTokens {
        return InvalidRefreshToken;
      }
      var decoded := verify(token);
      if decoded.None? {
        refreshTokens := refreshTokens - {token};
        return InvalidRefreshToken;
      }
      var claims := ClaimsAt(decoded.value.username, decoded.value.id, now, ACCESS_TOKEN_LIFETIME);
      response := Refreshed(sign(AccessSecret, claims));
    }

    method Logout(authorization: Option<string>, refreshToken: Option<string>) returns (response: LogoutResponse)
      requires Valid()
      modifies this
      ensures Valid()
      ensures Step(response, Snapshot()) == LogoutStep(old(Snapshot()), authorization, refreshToken)
    {
      if Truthy(authorization) {
        var fields := Split(authorization.value, ' ');
        if |fields| >= 2 && fields[1] != "" {
          blacklistedTokens := blacklistedTokens + {fields[1]};
        }
      }
      if Truthy(refreshToken) {
        refreshTokens := refreshTokens - {refreshToken.value};
      }
      response := LoggedOut;
    }
  }
}
