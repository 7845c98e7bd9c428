/**
 * What the core relies on from its JSON Web Token library: the claims it signs, and
 * signing and verification as oracles.
 */
module Jwt {

  import opened Wrappers

  /** `expiresIn: '15m'`, in seconds */
  const ACCESS_TOKEN_LIFETIME: int := 15 * 60

  /** `expiresIn: '7d'`, in seconds */
  const REFRESH_TOKEN_LIFETIME: int := 7 * 24 * 60 * 60

  /** The two signing secrets: access tokens and refresh tokens never share one. */
  datatype Secret = AccessSecret | RefreshSecret

  /** The payload `{ username, id }` plus the `iat` and `exp` the library adds, in seconds. */
  datatype Claims = Claims(username: string, id: string, iat: int, exp: int)

  /** `jwt.sign(payload, secret, options)`: the signed token for the given claims. */
  type Signer = (Secret, Claims) -> string

  /**
   * `jwt.verify(token, secret)` for one secret at one moment: the decoded claims, or
   * `None` when the signature does not check or the token has expired.
   */
  type Verifier = string -> Option<Claims>

  /**
   * The claims `jwt.sign` puts in a token made at `now` (milliseconds): `iat` is the
   * current second rounded down and `exp` lies `lifetime` seconds after it.
   */
  function ClaimsAt(username: string, id: string, now: int, lifetime: int): (c: Claims)
    ensures c.username == username && c.id == id
    ensures c.iat * 1000 <= now < c.iat * 1000 + 1000
    ensures c.exp - c.iat == lifetime
  {
    Claims(username, id, now / 1000, now / 1000 + lifetime)
  }
}
