# Credential and session authority of a JWT login service

This project models the core of a small username/password authentication service and proves properties of it.

- The Express backend registers users, checks logins against a per-account lockout, and issues 15-minute access tokens and 7-day refresh tokens.
- It keeps two process-wide token sets. `blacklistedTokens` is a denylist of revoked access tokens. `refreshTokens` is an allow-list of refresh tokens it will still honour.
- A middleware guards protected routes. It checks the bearer token of the `Authorization` header.
- The React client shows a password strength meter. It also keeps the session in `localStorage` through its authentication context.

## Structure

| file | module | models |
|---|---|---|
| `wrappers.dfy` | `Wrappers` | `Option`, for `null`/`undefined` |
| `js_strings.dfy` | `JsStrings` | JavaScript truthiness of strings; `split(' ')` and its inverse `join` |
| `headers.dfy` | `Headers` | `authHeader.split(' ')[1]` as used by the middleware and `/logout` |
| `char_classes.dfy` | `CharClasses` | the regular-expression character classes |
| `password_policy.dfy` | `PasswordPolicy` | `isStrongPassword`, construct by construct |
| `jwt.dfy` | `Jwt` | claims, signing and verification as oracles; token lifetimes |
| `server.dfy` | `Server` | the user store and token sets as a value `State`; each handler as a function from state to answer and new state |
| `server_authority.dfy` | `ServerAuthority` | class `Authority`: the same handlers as methods that update the fields step by step, proved equal to the step functions |
| `server_properties.dfy` | `ServerProperties` | properties of one request |
| `lifecycle.dfy` | `Lifecycle` | request sequences: lockout, permanent revocation, where refresh tokens come from |
| `auth_middleware.dfy` | `AuthMiddleware` | the `auth(blacklistedTokens)` middleware |
| `strength_meter.dfy` | `StrengthMeter` | `calculateStrength` (a loop), percentage, label, bar colour |
| `auth_context.dfy` | `AuthContext` | class `AuthProvider` over a `localStorage` map: login, logout, refresh, the mount-time restore |

The collaborators the code calls into are parameters of the model:
- `Date.now()` is an `int` `now` in milliseconds, read once per request.
- `bcrypt.compare` is a function `Comparer`. The digest `bcrypt.hash` returns and the document id the store assigns are plain parameters of registration.
- `jwt.sign` is a function `Signer` of the secret (access or refresh) and the claims. The model computes the claims: `iat` is the current second, `exp = iat + lifetime`.
- `jwt.verify` is a function `Verifier` from a token to its claims or `None`. It stands for one secret at one moment, so it covers both bad signatures and expiry.
- On the client, `JSON.parse(atob(…))` of a token's payload is a `PayloadDecoder`. It returns `None` when decoding throws, and `Some(None)` when the payload has no numeric `exp`.
- The answer of the client's `fetch` to `/refresh` is a parameter: `None` means the refresh failed.

Some consequences of the code, as written, are easy to miss:
- The comment at backend/server.js:114 reads as "lock after 5 failed attempts". The code sets a lock on every failure that leaves the count at 5 or more (`>= 5`). Only a successful login resets the count, so the count keeps growing after a lock expires. The first wrong password after that re-locks the account at once (`ExpiredLockRelocksOnMismatch`).
- A client can tell an unknown username from a wrong password. An unknown username gets "Invalid credentials." with no attempt count, and no password is compared. A wrong password gets "Invalid credentials. N attempts remaining." with `attemptsRemaining`, or a 423 lock (`UnknownUserDistinguishable`).
- `isAuthenticated` is `!!token`, so an empty-string token counts as signed out, not only `null`.
- On the client, a stored token whose payload has no `exp` is never treated as expired: `now >= NaN` is false.

The signer is a function, so the model inherits one property of the JWT library: two successful logins of one account within the same second receive the same token pair (`SameSecondLoginsShareTokens`).

## Model

| member | source | states |
|---|---|---|
| `JsStrings.Split` | backend/middleware/auth.js:10 | `split(' ')` yields at least one field and no field contains the separator |
| `JsStrings.JoinSplit` | backend/middleware/auth.js:10 | joining the fields of a split with the separator gives back the original header |
| `JsStrings.SplitJoin` | backend/middleware/auth.js:10 | splitting a join of separator-free fields gives back those fields (split and join are inverses) |
| `Headers.BearerToken` | backend/middleware/auth.js:7-13 | the extracted bearer value is never empty and never contains a space |
| `Headers.BearerTokenOf` | backend/middleware/auth.js:10-13 | for `scheme + " " + token + rest` with a space-free scheme and token and a rest that is empty or starts with a space, the bearer value is `token` |
| `Headers.BearerTokenLocated` | backend/middleware/auth.js:10-13 | conversely, a bearer value is exactly the text between the header's first space and the next space or the end |
| `PasswordPolicy.IsStrongPassword` | backend/server.js:39-42 | the regex (four lookaheads and an anchored `{8,}` body) holds iff the password has at least 8 characters, all in `[A-Za-z0-9@$!%*?&]`, with a lowercase letter, an uppercase letter, a digit and one of `@$!%*?&` |
| `PasswordPolicy.StrongPasswordExamples` | backend/server.js:39-42 | `"Abc123!@"` is accepted; `"Abcdefg1"`, `"abcdefgh"`, `"ABCDEFGH"` and `"12345678"` are refused |
| `Jwt.ClaimsAt` | backend/server.js:45-56 | signed claims name the user; `iat` is the signing instant's second rounded down; `exp` lies the token's lifetime (900 s or 604800 s) after `iat` |
| `Server.RegisterStep` | backend/server.js:64-88 | a new record is added iff both fields are present, the password is strong and the username is free; then the store gains exactly that key, with `failedAttempts = 0` and `lockUntil = null`, and nothing else changes; every 400 leaves the whole state unchanged; the token sets never change; the store invariant is kept |
| `Server.MinutesRemaining` | backend/server.js:102 | the result is the ceiling of the remaining milliseconds over 60000, and at least 1 while the lock is in the future |
| `Server.GenerateTokens` | backend/server.js:45-59 | the access token is the signer's output under the access secret, and the refresh token under the refresh secret, for claims that name the user (username and id), are issued in the current second and live 900 s and 604800 s |
| `Server.LoginStep` | backend/server.js:91-150 | a missing or empty username or password gives 400 "Username and password are required." (iff) and changes nothing; "Invalid credentials." without a count comes iff the fields are present and the name is unknown, and changes nothing; 423 with minutes remaining comes iff the named account is locked now, and changes nothing; a login succeeds iff the fields are present, the account exists, is not locked and the password compares; the denylist never changes; no account is added or removed, and no id, username or digest changes; accounts other than the named one are untouched; the allow-list gains exactly the issued refresh token on success and is otherwise unchanged; `attemptsRemaining` is in 1..4; the store invariant (a lock only with at least 5 failures) is kept |
| `Server.RefreshStep` | backend/server.js:153-178 | a missing token gives 401; a new access token is minted iff the token is in the allow-list and verifies; the store and denylist never change; the allow-list loses the presented token on a 403 and is otherwise unchanged (so a refresh token is not rotated); the minted token is a 15-minute access token for the decoded user |
| `Server.LogoutStep` | backend/server.js:181-197 | the denylist gains exactly the header's bearer value, if any; the allow-list loses exactly the body's refresh token, if any; the store is unchanged; the only answer is 200 |
| `ServerProperties.RegisterValidatesBeforeLookup` | backend/server.js:67-70 | missing fields and weak passwords get the same 400 whatever the store holds, and nothing changes |
| `ServerProperties.RegisterDuplicateRefused` | backend/server.js:72-73 | registering an existing username gives "User already exists." and changes nothing |
| `ServerProperties.UnknownUserRefused` | backend/server.js:97-98 | an unknown username gives 400 "Invalid credentials." and changes nothing |
| `ServerProperties.LockedLoginRefused` | backend/server.js:101-107 | a locked account gets 423 with the lock instant and the minutes remaining (rounded up, at least 1); the state is unchanged; the answer is the same for any password comparison, so the password is not consulted |
| `ServerProperties.LockEndsAtItsInstant` | backend/server.js:101 | a lock ending exactly now no longer holds |
| `ServerProperties.FreshLockAtMostFifteenMinutes` | backend/server.js:101-116 | a lock set by a failure is reported with 1 to 15 minutes remaining while it lasts |
| `ServerProperties.MismatchCountsOneFailure` | backend/server.js:109-128 | a wrong password on an unlocked account adds exactly one failure; at 5 or more it locks until `now + 900000` and answers 423; below 5 it answers 400 with `5 - failedAttempts` and leaves the lock field; `lastLogin` and the allow-list are unchanged |
| `ServerProperties.SuccessfulLoginResets` | backend/server.js:131-146 | the right password on an unlocked account sets `failedAttempts = 0`, `lockUntil = null`, `lastLogin = now`; it answers 200 with a 15-minute access token and a 7-day refresh token for the account; the refresh token is in the allow-list; the denylist is unchanged |
| `ServerProperties.RememberMeOnlyChangesExpiresIn` | backend/server.js:137-145 | "remember me" changes only `expiresIn` (604800000 ms instead of 900000 ms); tokens and state are the same either way |
| `ServerProperties.ExpiredLockRelocksOnMismatch` | backend/server.js:101-116 | under the store invariant, the first wrong password after a lock expires re-locks immediately |
| `ServerProperties.UnknownUserDistinguishable` | backend/server.js:97-128 | the answers to an unknown username and to a wrong password differ |
| `ServerProperties.SameSecondLoginsShareTokens` | backend/server.js:45-58 | two successful logins with the same request within the same second get identical access and refresh tokens |
| `ServerProperties.GeneratedTokensDecode` | backend/server.js:45-59 | round trip: under verifiers that accept what the signer made with their secret, both issued tokens decode to the user's name and id, issued in the current second, with lifetimes of 15 minutes and 7 days |
| `ServerProperties.LogoutIdempotent` | backend/server.js:181-197 | logging out twice with the same request leaves the same token sets as once |
| `ServerAuthority.Authority.constructor` | backend/server.js:16-18 | at process start both token sets are empty and the store is what the database holds |
| `ServerAuthority.Authority.Register` | backend/server.js:64-88 | the handler, updating the store in place, gives exactly `RegisterStep`'s answer and new state and keeps the invariant |
| `ServerAuthority.Authority.Login` | backend/server.js:91-150 | the handler, updating the record field by field and adding to the allow-list, gives exactly `LoginStep`'s answer and new state and keeps the invariant |
| `ServerAuthority.Authority.Refresh` | backend/server.js:153-178 | the handler, deleting from the allow-list on a failed verification, gives exactly `RefreshStep`'s answer and new state |
| `ServerAuthority.Authority.Logout` | backend/server.js:181-197 | the handler, adding to the denylist and deleting from the allow-list, gives exactly `LogoutStep`'s answer and new state |
| `AuthMiddleware.Authenticate` | backend/middleware/auth.js:4-24 | the request proceeds iff the header is present, its bearer value is non-empty, it verifies and it is not revoked; then `req.user` is the decoded claims; "No token provided." iff the header is missing or empty; "Malformed token." iff the header is present without a bearer value; a verification failure always gives "Invalid or expired token."; "Token revoked." iff the token verifies and is revoked; the denylist is only read |
| `AuthMiddleware.SchemeAloneIsMalformed` | backend/middleware/auth.js:10-13 | the header `"Bearer"` gives "Malformed token." |
| `AuthMiddleware.ExpiryReportedBeforeRevocation` | backend/middleware/auth.js:14-20 | a revoked token that fails verification is reported as "Invalid or expired token.", not "Token revoked." |
| `Lifecycle.RunPreservesInv` | backend/server.js:64-197 | any sequence of requests keeps every record under its own username, with a lock only after at least 5 failures |
| `Lifecycle.RevokedStaysRevoked` | backend/server.js:17 | no sequence of requests removes a token from the denylist |
| `Lifecycle.LogoutRevokesForever` | backend/server.js:185-189 | after a logout whose header carries a bearer value, the middleware refuses every later header with the same bearer value, after any later requests and for any verifier |
| `Lifecycle.BearerLogoutRevokesForever` | backend/server.js:185-189 | the same for the header `"Bearer " + t` with a non-empty, space-free `t` |
| `Lifecycle.AllowListGrowsOnlyByLogin` | backend/server.js:138 | a request adds a refresh token to the allow-list only by a successful login issuing it |
| `Lifecycle.RefreshTokenComesFromLogin` | backend/server.js:138 | a refresh token in the allow-list after a sequence of requests, and not before it, was issued by a login in that sequence |
| `Lifecycle.OutsideAllowListCannotMint` | backend/server.js:160-167 | a non-empty refresh token outside the allow-list gets 403 from `/refresh` after any later requests, unless a later login issues that very token |
| `Lifecycle.WithdrawnRefreshTokenCannotMint` | backend/server.js:160-162 | a refresh token withdrawn at logout gets 403 from `/refresh` after any later requests, unless a later login issues the same token |
| `Lifecycle.RejectedRefreshTokenCannotMint` | backend/server.js:164-167 | a refresh token that once failed verification gets 403 from `/refresh` after any later requests, even from a verifier that now accepts it, unless a later login issues it |
| `Lifecycle.MismatchesAccumulate` | backend/server.js:109-128 | up to four consecutive wrong passwords on an unlocked account only count up; the account stays unlocked |
| `Lifecycle.FifthMismatchLocks` | backend/server.js:101-128 | from a fresh record, four wrong passwords leave the account unlocked; the fifth answers 423 with a lock 15 minutes out; after any later requests in which the account's own logins all come before the lock ends, every attempt before the lock ends, with any password, gets 423 |
| `Lifecycle.FifthMismatchSetsLock` | backend/server.js:109-117 | a wrong password on an unlocked account with four failures answers 423 and sets the lock to `now + 900000` |
| `Lifecycle.LockHoldsUntilItEnds` | backend/server.js:101-107 | a locked account's record is unchanged by any requests in which its own logins all come before the lock ends |
| `Lifecycle.LockedUntilItEnds` | backend/server.js:101-107 | after such requests, a login of the account with both fields present, before the lock ends, gets 423 |
| `Lifecycle.CounterLowersOnlyOnSuccess` | backend/server.js:131-133 | an account's failure count goes down only through a successful login of that account |
| `StrengthMeter.CountTrue` | frontend/src/components/PasswordStrengthMeter.jsx:14-16 | the count of true checks is at most their number; it equals their number iff all are true; it is 0 iff none is |
| `StrengthMeter.ChecksOf` | frontend/src/components/PasswordStrengthMeter.jsx:6-12 | every password the server's rule accepts passes all five checks |
| `StrengthMeter.Score` | frontend/src/components/PasswordStrengthMeter.jsx:4-19 | the score is between 0 and 5; it is 5 iff all five checks pass and 0 iff none does |
| `StrengthMeter.CalculateStrength` | frontend/src/components/PasswordStrengthMeter.jsx:4-19 | the loop returns the five checks of the password and a score equal to the number that pass |
| `StrengthMeter.Percentage` | frontend/src/components/PasswordStrengthMeter.jsx:22 | the width is exactly `score / 5 * 100`, at most 100 for a score of at most 5, and 100 iff the score is 5 |
| `StrengthMeter.HasPassword` | frontend/src/components/PasswordStrengthMeter.jsx:40 | the meter is shown iff the password is non-empty |
| `StrengthMeter.GetStrengthText` | frontend/src/components/PasswordStrengthMeter.jsx:24-30 | the label text and colour are empty iff the score is 0; otherwise the text colour has the same hue as the bar (red for 1-2, yellow for 3, blue for 4, green for 5) |
| `StrengthMeter.GetBarColor` | frontend/src/components/PasswordStrengthMeter.jsx:32-37 | the bar class is a `bg-` class; it is green iff the score is 5 or more and red iff it is 2 or less |
| `StrengthMeter.LabelRisesWithScore` | frontend/src/components/PasswordStrengthMeter.jsx:24-30 | labels never go down as the score rises ("" < Weak < Fair < Good < Strong) |
| `StrengthMeter.StrongLabelIffAllChecks` | frontend/src/components/PasswordStrengthMeter.jsx:24-37 | the label is "Strong", and the bar green, iff all five checks pass |
| `StrengthMeter.ScoreMonotone` | frontend/src/components/PasswordStrengthMeter.jsx:7-11 | appending characters never lowers the score |
| `StrengthMeter.EmptyPasswordScoresZero` | frontend/src/components/PasswordStrengthMeter.jsx:40 | a hidden meter (empty password) means score 0 and width 0 |
| `StrengthMeter.ShownMeterMayScoreZero` | frontend/src/components/PasswordStrengthMeter.jsx:7-11 | the converse fails: `"#"` is shown and scores 0 |
| `StrengthMeter.StrongPasswordScoresFive` | frontend/src/components/PasswordStrengthMeter.jsx:7-11 | every password the server accepts scores 5 |
| `StrengthMeter.MeterAcceptsWhatServerRefuses` | frontend/src/components/PasswordStrengthMeter.jsx:7-11 | the converse fails: `"Abcdef1!#"` scores 5 and the server refuses it |
| `AuthContext.StoreLogin` | frontend/src/contexts/AuthContext.jsx:78-86 | login writes `token`, `refreshToken` and `username`; it writes `rememberMe` as exactly `"true"` or `"false"`; it writes `rememberedUsername` only when asked to remember, otherwise keeping its old value; every other key is untouched |
| `AuthContext.ClearSession` | frontend/src/contexts/AuthContext.jsx:110-114 | exactly the four session keys are removed; `rememberedUsername` and every other key are kept |
| `AuthContext.LoginThenLogout` | frontend/src/contexts/AuthContext.jsx:78-122 | logout after login leaves storage as logout alone, plus the remembered username when asked to remember; so `getRememberedUsername` then returns that username |
| `AuthContext.ClearSessionIdempotent` | frontend/src/contexts/AuthContext.jsx:110-114 | clearing the session twice is the same as once |
| `AuthContext.GetRememberedUsername` | frontend/src/contexts/AuthContext.jsx:120-122 | a stored non-empty remembered username is returned as is; otherwise the result is `""` |
| `AuthContext.MountDecision` | frontend/src/contexts/AuthContext.jsx:18-51 | nothing happens unless a token and a username are stored; an unexpired token is always restored; a refresh is tried only for an expired token with a stored refresh token and `rememberMe == "true"`; keys are cleared only when decoding fails or no refresh is possible |
| `AuthContext.AuthProvider.constructor` | frontend/src/contexts/AuthContext.jsx:14-16 | the provider starts signed out and loading |
| `AuthContext.AuthProvider.IsAuthenticated` | frontend/src/contexts/AuthContext.jsx:130 | authenticated iff a token is held and it is not the empty string |
| `AuthContext.AuthProvider.Login` | frontend/src/contexts/AuthContext.jsx:78-90 | the storage updates give exactly `StoreLogin`'s storage; token and user are set; the provider is authenticated iff the access token is non-empty |
| `AuthContext.AuthProvider.RemoveSessionKeys` | frontend/src/contexts/AuthContext.jsx:110-114 | the four `removeItem` calls leave exactly `ClearSession`'s storage |
| `AuthContext.AuthProvider.Logout` | frontend/src/contexts/AuthContext.jsx:92-118 | the four removals give exactly `ClearSession`'s storage; token and user become null, so the provider is not authenticated |
| `AuthContext.AuthProvider.RefreshAccessToken` | frontend/src/contexts/AuthContext.jsx:55-76 | a successful refresh stores and sets the new token and sets the user from the stored username; a failed one logs out |
| `AuthContext.AuthProvider.Mount` | frontend/src/contexts/AuthContext.jsx:18-53 | carries out `MountDecision`: restore, refresh, clear or nothing; loading ends |
| `AuthContext.LoginThenLogoutRemembers` | frontend/src/contexts/AuthContext.jsx:78-130 | after `login(…, u, true)` and `logout`, `isAuthenticated` is false and `getRememberedUsername()` returns `u` |

## Left out

- The login rate limiter (backend/server.js:25-31) is left out. It is a library-provided sliding window, with no logic of the service's own.
- The Express wiring, CORS, the 404 and error handlers and `app.listen` are left out (backend/server.js:11-22, 211-225). So is the `/protected` handler body (backend/server.js:200-209), which only formats `req.user`. Errors thrown by the store or by hashing, which the error handler turns into 500, are not modelled.
- Persistence is a map from username to record. The Mongoose connection, `save`, the unique index and the `createdAt`/`updatedAt` timestamps are left out.
- Requests are handled one at a time. The model does not capture concurrent read-modify-write races on `failedAttempts`.
- bcrypt and the JWT library are oracles. Whether a stored digest differs from the plaintext is a property of bcrypt, so the model cannot state it.
- Signature checking and expiry are one `Verifier` answer. The model does not separate them.
- The source reads `Date.now()` several times within one request. The model reads the clock once per request.
- Request body fields are optional strings. JSON values of other types, and their truthiness, are not modelled. `rememberMe` is a boolean, and the login answer echoes it as such.
- Strings are sequences of Unicode scalar values. JavaScript's `length` counts UTF-16 code units, so for characters outside the Basic Multilingual Plane the meter's length check differs. No such character passes the server's rule.
- Answer messages that interpolate numbers ("Try again in N minutes.", "N attempts remaining.") are represented by those numbers.
- StrengthMeter.Percentage: the source computes `(score / 5) * 100` in floating point. The model states the exact rational value.
- In the mount effect, the source starts the refresh without awaiting it and ends loading first. The model completes the refresh before loading ends.
- The client's `fetch` to `/logout` is an opaque effect. Its outcome does not change what `logout` does locally.
- frontend/src/services/api.js (the axios interceptors and retry-on-401) is not part of this model.
- The session-timeout hook and warning (frontend/src/hooks/useSessionTimeout.js, frontend/src/components/SessionTimeoutWarning.jsx) are timers. They are not part of this model.
- The page components, routing and dark-mode context are UI rendering. They are not part of this model.
