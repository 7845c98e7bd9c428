/**
 * The client's authentication context: the session kept in the browser's
 * `localStorage` (a string-to-string map here), the in-memory `token` and `user`, and
 * the login, logout and start-up restore that update them.
 */
module AuthContext {

  import opened Wrappers
  import opened JsStrings

  type Storage = map<string, string>

  const TOKEN_KEY: string := "token"
  const REFRESH_TOKEN_KEY: string := "refreshToken"
  const USERNAME_KEY: string := "username"
  const REMEMBER_ME_KEY: string := "rememberMe"
  const REMEMBERED_USERNAME_KEY: string := "rememberedUsername"

  /** The keys of a stored session; `rememberedUsername` is deliberately not one of them. */
  const SESSION_KEYS: set<string> := {TOKEN_KEY, REFRESH_TOKEN_KEY, USERNAME_KEY, REMEMBER_ME_KEY}

  /** `localStorage.getItem(key)`, `None` standing for `null` */
  function GetItem(storage: Storage, key: string): Option<string> {
    if key in storage then Some(storage[key]) else None
  }

  /** `rememberMe.toString()` */
  function BoolToString(b: bool): string {
    if b then "true" else "false"
  }

  /** The `user` state: `{ username }`, where the username read back from storage may be `null`. */
  datatype SessionUser = SessionUser(username: Option<string>)

  /**
   * What `login` leaves in storage: the session keys written, `rememberMe` as exactly
   * `"true"` or `"false"`, `rememberedUsername` written only when asked to remember,
   * every other key untouched.
   */
  function StoreLogin(storage: Storage, accessToken: string, refreshToken: string, username: string, rememberMe: bool): (after: Storage)
    ensures GetItem(after, TOKEN_KEY) == Some(accessToken)
    ensures GetItem(after, REFRESH_TOKEN_KEY) == Some(refreshToken)
    ensures GetItem(after, USERNAME_KEY) == Some(username)
    ensures GetItem(after, REMEMBER_ME_KEY) == Some(if rememberMe then "true" else "false")
    ensures GetItem(after, REMEMBERED_USERNAME_KEY) ==
      if rememberMe then Some(username) else GetItem(storage, REMEMBERED_USERNAME_KEY)
    ensures forall key :: key !in SESSION_KEYS && key != REMEMBERED_USERNAME_KEY ==> GetItem(after, key) == GetItem(storage, key)
  {
    var session := storage[TOKEN_KEY := accessToken][REFRESH_TOKEN_KEY := refreshToken]
                          [USERNAME_KEY := username][REMEMBER_ME_KEY := BoolToString(rememberMe)];
    if rememberMe then session[REMEMBERED_USERNAME_KEY := username] else session
  }

  /** The four `removeItem` calls of `logout`: exactly the session keys go, everything else stays. */
  function ClearSession(storage: Storage): (after: Storage)
    ensures forall key :: GetItem(after, key) == if key in SESSION_KEYS then None else GetItem(storage, key)
  {
    storage - SESSION_KEYS
  }

  /** `getRememberedUsername`: the remembered username, or `""` when there is none. */
  function GetRememberedUsername(storage: Storage): (name: string)
    ensures Truthy(GetItem(storage, REMEMBERED_USERNAME_KEY)) ==> GetItem(storage, REMEMBERED_USERNAME_KEY) == Some(name)
    ensures !Truthy(GetItem(storage, REMEMBERED_USERNAME_KEY)) ==> name == ""
  {
    if REMEMBERED_USERNAME_KEY in storage then storage[REMEMBERED_USERNAME_KEY] else ""
  }

  /**
   * Logging out after logging in leaves storage as logging out alone would, except that
   * a login that asked to be remembered leaves its username remembered. In particular,
   * after `login(…, u, true)` and `logout`, the remembered username is `u`.
   */
  lemma LoginThenLogout(storage: Storage, accessToken: string, refreshToken: string, username: string, rememberMe: bool)
    ensures ClearSession(StoreLogin(storage, accessToken, refreshToken, username, rememberMe)) ==
      if rememberMe then ClearSession(storage)[REMEMBERED_USERNAME_KEY := username] else ClearSession(storage)
    ensures rememberMe ==> GetRememberedUsername(ClearSession(StoreLogin(storage, accessToken, refreshToken, username, rememberMe))) == username
  {
    var after := ClearSession(StoreLogin(storage, accessToken, refreshToken, username, rememberMe));
    var expected := if rememberMe then ClearSession(storage)[REMEMBERED_USERNAME_KEY := username] else ClearSession(storage);
    assert REMEMBERED_USERNAME_KEY !in SESSION_KEYS;
    forall key ensures GetItem(after, key) == GetItem(expected, key) {
    }
    assert after.Keys == expected.Keys by {
      forall key ensures key in after <==> key in expected {
        assert GetItem(after, key) == GetItem(expected, key);
      }
    }
  }

  /** Logging out twice leaves storage as logging out once. */
  lemma ClearSessionIdempotent(storage: Storage)
    ensures ClearSession(ClearSession(storage)) == ClearSession(storage)
  {
  }

  // ---------------------------------------------------------------------------------
  // Start-up restore

  /**
   * `JSON.parse(atob(token.split('.')[1]))` read for its `exp`: `None` when decoding
   * throws, `Some(None)` when the payload has no numeric `exp`.
   */
  type PayloadDecoder = string -> Option<Option<int>>

  /** `Date.now() >= payload.exp * 1000`; a missing `exp` compares as `NaN`, which is never expired. */
  predicate IsExpired(exp: Option<int>, now: int) {
    exp.Some? && now >= exp.value * 1000
  }

  datatype MountAction =
    | NoStoredSession
    | RestoreSession(token: string, username: string)
    | TryRefresh(refreshToken: string)
    | ClearStoredSession

  /** The choice the mount effect makes from what storage holds at start-up. */
  function MountDecision(storage: Storage, now: int, decode: PayloadDecoder): (action: MountAction)
    ensures action.NoStoredSession? <==> !Truthy(GetItem(storage, TOKEN_KEY)) || !Truthy(GetItem(storage, USERNAME_KEY))
    ensures action.RestoreSession? ==>
      && GetItem(storage, TOKEN_KEY) == Some(action.token) && GetItem(storage, USERNAME_KEY) == Some(action.username)
      && decode(action.token).Some? && !IsExpired(decode(action.token).value, now)
    ensures action.TryRefresh? ==>
      && GetItem(storage, REFRESH_TOKEN_KEY) == Some(action.refreshToken) && action.refreshToken != ""
      && GetItem(storage, REMEMBER_ME_KEY) == Some("true")
      && decode(storage[TOKEN_KEY]).Some? && IsExpired(decode(storage[TOKEN_KEY]).value, now)
    ensures action.ClearStoredSession? ==>
      decode(storage[TOKEN_KEY]).None? || GetItem(storage, REMEMBER_ME_KEY) != Some("true") || !Truthy(GetItem(storage, REFRESH_TOKEN_KEY))
    ensures !action.NoStoredSession? && decode(storage[TOKEN_KEY]).Some? && !IsExpired(decode(storage[TOKEN_KEY]).value, now) ==>
      action.RestoreSession?
  {
    var storedToken := GetItem(storage, TOKEN_KEY);
    var storedRefreshToken := GetItem(storage, REFRESH_TOKEN_KEY);
    var storedUsername := GetItem(storage, USERNAME_KEY);
    var rememberMe := GetItem(storage, REMEMBER_ME_KEY) == Some("true");
    if !(Truthy(storedToken) && Truthy(storedUsername)) then NoStoredSession
    else
      match decode(storedToken.value)
      case None => ClearStoredSession
      case Some(exp) =>
        if !IsExpired(exp, now) then RestoreSession(storedToken.value, storedUsername.value)
        else if Truthy(storedRefreshToken) && rememberMe then TryRefresh(storedRefreshToken.value)
        else ClearStoredSession
  }

  // ---------------------------------------------------------------------------------
  // The provider

  class AuthProvider {
    /** The browser's `localStorage` */
    var storage: Storage
    var token: Option<string>
    var user: Option<SessionUser>
    var loading: bool

    constructor (stored: Storage)
      ensures storage == stored && token == None && user == None && loading
    {
      storage := stored;
      token := None;
      user := None;
      loading := true;
    }

    /** `isAuthenticated: !!token`: a token is held and it is not the empty string. */
    function IsAuthenticated(): (authenticated: bool)
      reads this
      ensures authenticated <==> token.Some? && |token.value| > 0
    {
      Truthy(token)
    }

    method Login(accessToken: string, refreshToken: string, username: string, rememberMe: bool)
      modifies this
      ensures storage == StoreLogin(old(storage), accessToken, refreshToken, username, rememberMe)
      ensures token == Some(accessToken) && user == Some(SessionUser(Some(username)))
      ensures IsAuthenticated() <==> accessToken != ""
      ensures loading == old(loading)
    {
      storage := storage[TOKEN_KEY := accessToken];
      storage := storage[REFRESH_TOKEN_KEY := refreshToken];
      storage := storage[USERNAME_KEY := username];
      storage := storage[REMEMBER_ME_KEY := BoolToString(rememberMe)];
      if rememberMe {
        storage := storage[REMEMBERED_USERNAME_KEY := username];
      }
      token := Some(accessToken);
      user := Some(SessionUser(Some(username)));
    }

    method RemoveSessionKeys()
      modifies this`storage
      ensures storage == ClearSession(old(storage))
    {
      storage := storage - {TOKEN_KEY};
      storage := storage - {REFRESH_TOKEN_KEY};
      storage := storage - {USERNAME_KEY};
      storage := storage - {REMEMBER_ME_KEY};
    }

    /** `logout`, after its request to the server (whose outcome it ignores). */
    method Logout()
      modifies this
      ensures storage == ClearSession(old(storage))
      ensures token == None && user == None
      ensures !IsAuthenticated()
      ensures loading == old(loading)
    {
      RemoveSessionKeys();
      token := None;
      user := None;
    }

    /**
     * `refreshAccessToken`, given the server's answer: the new access token when the
     * response was ok, `None` when it was not or the request failed.
     */
    method RefreshAccessToken(answer: Option<string>)
      modifies this
      ensures answer.Some? ==>
        && storage == old(storage)[TOKEN_KEY := answer.value]
        && token == answer
        && user == Some(SessionUser(GetItem(old(storage), USERNAME_KEY)))
      ensures answer.None? ==> storage == ClearSession(old(storage)) && token == None && user == None
      ensures loading == old(loading)
    {
      if answer.Some? {
        storage := storage[TOKEN_KEY := answer.value];
        token := answer;
        var storedUsername := GetItem(storage, USERNAME_KEY);
        user := Some(SessionUser(storedUsername));
      } else {
        Logout();
      }
    }

    /**
     * The mount effect, at instant `now`, with `answer` the outcome of the refresh it may
     * start.
     */
    method Mount(now: int, decode: PayloadDecoder, answer: Option<string>)
      modifies this
      ensures !loading
      ensures match MountDecision(old(storage), now, decode)
        case NoStoredSession => storage == old(storage) && token == old(token) && user == old(user)
        case RestoreSession(t, name) =>
          storage == old(storage) && token == Some(t) && user == Some(SessionUser(Some(name)))
        case TryRefresh(_) =>
          && (answer.Some? ==>
                && storage == old(storage)[TOKEN_KEY := answer.value]
                && token == answer
                && user == Some(SessionUser(GetItem(old(storage), USERNAME_KEY))))
          && (answer.None? ==> storage == ClearSession(old(storage)) && token == None && user == None)
        case ClearStoredSession => storage == ClearSession(old(storage)) && token == old(token) && user == old(user)
    {
      var storedToken := GetItem(storage, TOKEN_KEY);
      var storedRefreshToken := GetItem(storage, REFRESH_TOKEN_KEY);
      var storedUsername := GetItem(storage, USERNAME_KEY);
      var rememberMe := GetItem(storage, REMEMBER_ME_KEY) == Some("true");
      if Truthy(storedToken) && Truthy(storedUsername) {
        var payload := decode(storedToken.value);
        if payload.None? {
          RemoveSessionKeys();
        } else {
          var isExpired := IsExpired(payload.value, now);
          if !isExpired {
            token := storedToken;
            user := Some(SessionUser(storedUsername));
          } else if Truthy(storedRefreshToken) && rememberMe {
            RefreshAccessToken(answer);
          } else {
            RemoveSessionKeys();
          }
        }
      }
      loading := false;
    }
  }

  /** After `login(…, u, true)` and `logout`, the client is signed out and still remembers `u`. */
  method LoginThenLogoutRemembers(provider: AuthProvider, accessToken: string, refreshToken: string, username: string)
    modifies provider
    ensures !provider.IsAuthenticated()
    ensures GetRememberedUsername(provider.storage) == username
  {
    ghost var before := provider.storage;
    provider.Login(accessToken, refreshToken, username, true);
    provider.Logout();
    LoginThenLogout(before, accessToken, refreshToken, username, true);
  }
}
