/**
 * The credential and session authority of the backend: the user store, the denylist of
 * revoked access tokens and the allow-list of refresh tokens, and the four handlers
 * `/register`, `/login`, `/refresh` and `/logout` as functions from the state before a
 * request to the response and the state after it.
 */
module Server {

  import opened Wrappers
  import opened JsStrings
  import opened Headers
  import opened PasswordPolicy
  import opened Jwt

  /** Failed logins that lock an account */
  const MAX_FAILED_ATTEMPTS: nat := 5

  /** How long a lock lasts, in milliseconds */
  const LOCK_DURATION: int := 15 * 60 * 1000

  const MS_PER_MINUTE: int := 60 * 1000

  /** `expiresIn` reported to a client that asked to be remembered, in milliseconds */
  const REMEMBERED_SESSION: int := 7 * 24 * 60 * 60 * 1000

  /** `expiresIn` reported otherwise, in milliseconds */
  const PLAIN_SESSION: int := 15 * 60 * 1000

  /**
   * A stored user document. `passwordHash` is the bcrypt digest; `lockUntil` and
   * `lastLogin` are instants in milliseconds, `None` standing for `null`.
   */
  datatype UserRecord = UserRecord(
    id: string,
    username: string,
    passwordHash: string,
    failedAttempts: nat,
    lockUntil: Option<int>,
    lastLogin: Option<int>)

  /** The user store keyed by username, and the two process-wide token sets. */
  datatype State = State(
    users: map<string, UserRecord>,
    blacklistedTokens: set<string>,
    refreshTokens: set<string>)

  /** What a handler answers, and the state it leaves behind. */
  datatype Step<R> = Step(response: R, state: State)

  /** `bcrypt.compare(plaintext, digest)` */
  type Comparer = (string, string) -> bool

  /**
   * The invariant every handler keeps: each record is stored under its own username,
   * and only an account with at least five failures carries a lock.
   */
  predicate Inv(s: State) {
    forall name :: name in s.users ==>
      && s.users[name].username == name
      && (s.users[name].lockUntil.Some? ==> s.users[name].failedAttempts >= MAX_FAILED_ATTEMPTS)
  }

  /** Login never touches who an account is: its id, username and password digest. */
  predicate SameAccount(before: UserRecord, after: UserRecord) {
    after.id == before.id && after.username == before.username && after.passwordHash == before.passwordHash
  }

  // ---------------------------------------------------------------------------------
  // Registration

  datatype RegisterBody = RegisterBody(username: Option<string>, password: Option<string>)

  datatype RegisterResponse =
    | RegisterFieldsRequired   // "Username and password are required."
    | WeakPassword             // "Password must be at least 8 characters long, ..."
    | UserExists               // "User already exists."
    | Registered               // "Registration successful."
  {
    function Status(): int {
      if Registered? then 201 else 400
    }
  }

  /**
   * `POST /register`, given the digest `bcrypt.hash` produced for this request and the
   * id the store assigns to a new document.
   */
  function RegisterStep(s: State, body: RegisterBody, hashed: string, newId: string): (r: Step<RegisterResponse>)
    ensures r.state.blacklistedTokens == s.blacklistedTokens && r.state.refreshTokens == s.refreshTokens
    ensures r.response.Registered? <==>
      && Truthy(body.username) && Truthy(body.password)
      && IsStrongPassword(body.password.value)
      && body.username.value !in s.users
    ensures !r.response.Registered? ==> r.state == s
    ensures r.response.Registered? ==>
      var name := body.username.value;
      && r.state.users.Keys == s.users.Keys + {name}
      && |r.state.users| == |s.users| + 1
      && r.state.users[name] == UserRecord(newId, name, hashed, 0, None, None)
      && forall n :: n in s.users ==> r.state.users[n] == s.users[n]
    ensures Inv(s) ==> Inv(r.state)
  {
    if !Truthy(body.username) || !Truthy(body.password) then Step(RegisterFieldsRequired, s)
    else if !IsStrongPassword(body.password.value) then Step(WeakPassword, s)
    else
      var name := body.username.value;
      if name in s.users then Step(UserExists, s)
      else
        var user := UserRecord(newId, name, hashed, 0, None, None);
        Step(Registered, s.(users := s.users[name := user]))
  }

  // ---------------------------------------------------------------------------------
  // Login

  datatype LoginBody = LoginBody(username: Option<string>, password: Option<string>, rememberMe: bool)

  datatype LoginResponse =
    | LoginFieldsRequired                                     // "Username and password are required."
    | InvalidCredentials                                      // "Invalid credentials."
    | AccountLocked(minutesRemaining: int, lockUntil: int)    // "Account locked. Try again in N minutes."
    | LockedAfterFailures(lockUntil: int)                     // "Account locked due to multiple failed attempts. ..."
    | WrongPassword(attemptsRemaining: int)                   // "Invalid credentials. N attempts remaining."
    | LoggedIn(accessToken: string, refreshToken: string, username: string, expiresIn: int, rememberMe: bool)
  {
    function Status(): int {
      match this
      case LoggedIn(_, _, _, _, _) => 200
      case AccountLocked(_, _) => 423
      case LockedAfterFailures(_) => 423
      case _ => 400
    }
  }

  /** An account is locked while its lock lies strictly in the future. */
  predicate IsLocked(user: UserRecord, now: int) {
    user.lockUntil.Some? && user.lockUntil.value > now
  }

  /** `Math.ceil((lockUntil - now) / 60000)`: the remaining time in whole minutes, rounded up. */
  function MinutesRemaining(lockUntil: int, now: int): (m: int)
    ensures (m - 1) * MS_PER_MINUTE < lockUntil - now <= m * MS_PER_MINUTE
    ensures lockUntil > now ==> m >= 1
  {
    -((now - lockUntil) / MS_PER_MINUTE)
  }

  /** `expiresIn` of a successful login: a week when the client asked to be remembered, else 15 minutes. */
  function ExpiresIn(rememberMe: bool): int {
    if rememberMe then REMEMBERED_SESSION else PLAIN_SESSION
  }

  datatype TokenPair = TokenPair(accessToken: string, refreshToken: string)

  /**
   * `generateTokens`: an access token signed with the access secret and a refresh token
   * signed with the refresh secret, both naming the user, issued in the current second,
   * and living 15 minutes and 7 days.
   */
  function GenerateTokens(user: UserRecord, now: int, sign: Signer): (pair: TokenPair)
    ensures exists c :: pair.accessToken == sign(AccessSecret, c) && IssuedFor(c, user, now, ACCESS_TOKEN_LIFETIME)
    ensures exists c :: pair.refreshToken == sign(RefreshSecret, c) && IssuedFor(c, user, now, REFRESH_TOKEN_LIFETIME)
  {
    var access := ClaimsAt(user.username, user.id, now, ACCESS_TOKEN_LIFETIME);
    var refresh := ClaimsAt(user.username, user.id, now, REFRESH_TOKEN_LIFETIME);
    assert IssuedFor(access, user, now, ACCESS_TOKEN_LIFETIME);
    assert IssuedFor(refresh, user, now, REFRESH_TOKEN_LIFETIME);
    TokenPair(sign(AccessSecret, access), sign(RefreshSecret, refresh))
  }

  /** Claims `c` name `user`, were issued in the second of `now` and live `lifetime` seconds. */
  predicate IssuedFor(c: Claims, user: UserRecord, now: int, lifetime: int) {
    && c.username == user.username && c.id == user.id
    && c.iat * 1000 <= now < c.iat * 1000 + 1000
    && c.exp - c.iat == lifetime
  }

  /** `POST /login` at instant `now`. */
  function LoginStep(s: State, body: LoginBody, now: int, compare: Comparer, sign: Signer): (r: Step<LoginResponse>)
    ensures r.response.LoginFieldsRequired? <==> !Truthy(body.username) || !Truthy(body.password)
    ensures r.response.LoginFieldsRequired? ==> r.state == s
    ensures r.response.InvalidCredentials? <==>
      Truthy(body.username) && Truthy(body.password) && body.username.value !in s.users
    ensures r.response.InvalidCredentials? ==> r.state == s
    ensures r.response.AccountLocked? <==>
      && Truthy(body.username) && Truthy(body.password) && body.username.value in s.users
      && IsLocked(s.users[body.username.value], now)
    ensures r.response.LoggedIn? <==>
      && Truthy(body.username) && Truthy(body.password) && body.username.value in s.users
      && !IsLocked(s.users[body.username.value], now)
      && compare(body.password.value, s.users[body.username.value].passwordHash)
    ensures r.state.blacklistedTokens == s.blacklistedTokens
    ensures r.state.users.Keys == s.users.Keys
    ensures forall name :: name in s.users ==> SameAccount(s.users[name], r.state.users[name])
    ensures forall name :: name in s.users && body.username != Some(name) ==> r.state.users[name] == s.users[name]
    ensures r.state.refreshTokens ==
      if r.response.LoggedIn? then s.refreshTokens + {r.response.refreshToken} else s.refreshTokens
    ensures r.response.WrongPassword? ==> 1 <= r.response.attemptsRemaining < MAX_FAILED_ATTEMPTS
    ensures r.response.AccountLocked? ==> r.response.minutesRemaining >= 1 && r.state == s
    ensures Inv(s) ==> Inv(r.state)
  {
    if !Truthy(body.username) || !Truthy(body.password) then Step(LoginFieldsRequired, s)
    else
      var name, password := body.username.value, body.password.value;
      if name !in s.users then Step(InvalidCredentials, s)
      else
        var user := s.users[name];
        if IsLocked(user, now) then
          Step(AccountLocked(MinutesRemaining(user.lockUntil.value, now), user.lockUntil.value), s)
        else if !compare(password, user.passwordHash) then
          var failed := user.(failedAttempts := user.failedAttempts + 1);
          if failed.failedAttempts >= MAX_FAILED_ATTEMPTS then
            var locked := failed.(lockUntil := Some(now + LOCK_DURATION));
            Step(LockedAfterFailures(now + LOCK_DURATION), s.(users := s.users[name := locked]))
          else
            Step(WrongPassword(MAX_FAILED_ATTEMPTS - failed.failedAttempts), s.(users := s.users[name := failed]))
        else
          var reset := user.(failedAttempts := 0, lockUntil := None, lastLogin := Some(now));
          var tokens := GenerateTokens(reset, now, sign);
          Step(LoggedIn(tokens.accessToken, tokens.refreshToken, reset.username, ExpiresIn(body.rememberMe), body.rememberMe),
               s.(users := s.users[name := reset], refreshTokens := s.refreshTokens + {tokens.refreshToken}))
  }

  // ---------------------------------------------------------------------------------
  // Refresh

  datatype RefreshResponse =
    | RefreshTokenRequired          // 401 "Refresh token required"
    | InvalidRefreshToken           // 403 "Invalid refresh token"
    | Refreshed(accessToken: string)
  {
    function Status(): int {
      match this
      case RefreshTokenRequired => 401
      case InvalidRefreshToken => 403
      case Refreshed(_) => 200
    }
  }

  /**
   * `POST /refresh`, where `verify` is `jwt.verify` with the refresh secret at instant
   * `now`. A refresh token is never rotated: it stays in the allow-list after use.
   */
  function RefreshStep(s: State, refreshToken: Option<string>, now: int, verify: Verifier, sign: Signer): (r: Step<RefreshResponse>)
    ensures r.state.users == s.users && r.state.blacklistedTokens == s.blacklistedTokens
    ensures r.response.RefreshTokenRequired? <==> !Truthy(refreshToken)
    ensures r.response.Refreshed? <==>
      Truthy(refreshToken) && refreshToken.value in s.refreshTokens && verify(refreshToken.value).Some?
    ensures r.state.refreshTokens ==
      if r.response.InvalidRefreshToken? then s.refreshTokens - {refreshToken.value} else s.refreshTokens
    ensures r.response.Refreshed? ==>
      var decoded := verify(refreshToken.value).value;
      r.response.accessToken == sign(AccessSecret, ClaimsAt(decoded.username, decoded.id, now, ACCESS_TOKEN_LIFETIME))
  {
    if !Truthy(refreshToken) then Step(RefreshTokenRequired, s)
    else
      var token := refreshToken.value;
      if token !in s.refreshTokens then Step(InvalidRefreshToken, s)
      else
        match verify(token)
        case None => Step(InvalidRefreshToken, s.(refreshTokens := s.refreshTokens - {token}))
        case Some(decoded) =>
          Step(Refreshed(sign(AccessSecret, ClaimsAt(decoded.username, decoded.id, now, ACCESS_TOKEN_LIFETIME))), s)
  }

  // ---------------------------------------------------------------------------------
  // Logout

  /** The only answer `/logout` gives: 200 "Logged out successfully." */
  datatype LogoutResponse = LoggedOut {
    function Status(): int { 200 }
  }

  /**
   * `POST /logout`: revoke the bearer value of the Authorization header, if any, and
   * withdraw the body's refresh token, if any.
   */
  function LogoutStep(s: State, authorization: Option<string>, refreshToken: Option<string>): (r: Step<LogoutResponse>)
    ensures r.state.users == s.users
    ensures forall t :: t in r.state.blacklistedTokens <==> t in s.blacklistedTokens || BearerToken(authorization) == Some(t)
    ensures forall t :: t in r.state.refreshTokens <==> t in s.refreshTokens && !(Truthy(refreshToken) && refreshToken.value == t)
  {
    var blacklisted := match BearerToken(authorization)
      case Some(token) => s.blacklistedTokens + {token}
      case None => s.blacklistedTokens;
    var allowed := if Truthy(refreshToken) then s.refreshTokens - {refreshToken.value} else s.refreshTokens;
    Step(LoggedOut, s.(blacklistedTokens := blacklisted, refreshTokens := allowed))
  }
}
