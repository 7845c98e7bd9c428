/**
 * The `auth(blacklistedTokens)` middleware that guards protected routes: a fixed chain
 * of checks on the Authorization header, the first failing one deciding the 401 answer.
 */
module AuthMiddleware {

  import opened Wrappers
  import opened JsStrings
  import opened Headers
  import opened Jwt

  datatype Rejection =
    | NoTokenProvided
    | MalformedToken
    | InvalidOrExpiredToken
    | TokenRevoked
  {
    function Message(): string {
      match this
      case NoTokenProvided => "No token provided."
      case MalformedToken => "Malformed token."
      case InvalidOrExpiredToken => "Invalid or expired token."
      case TokenRevoked => "Token revoked."
    }
  }

  /**
   * `Next(user)`: the request goes on to the route with `req.user` set to the decoded
   * claims. `Unauthorized(reason)`: the middleware answers 401 with the reason's message.
   */
  datatype AuthResult = Next(user: Claims) | Unauthorized(reason: Rejection)

  /**
   * The middleware for one request, where `verify` is `jwt.verify` with the access
   * secret at the moment of the request. It only reads the denylist.
   */
  function Authenticate(authorization: Option<string>, blacklistedTokens: set<string>, verify: Verifier): (r: AuthResult)
    ensures r.Next? <==>
      && BearerToken(authorization).Some?
      && verify(BearerToken(authorization).value).Some?
      && BearerToken(authorization).value !in blacklistedTokens
    ensures r.Next? ==> r.user == verify(BearerToken(authorization).value).value
    ensures r == Unauthorized(NoTokenProvided) <==> !Truthy(authorization)
    ensures r == Unauthorized(MalformedToken) <==> Truthy(authorization) && BearerToken(authorization).None?
    ensures BearerToken(authorization).Some? && verify(BearerToken(authorization).value).None? ==>
      r == Unauthorized(InvalidOrExpiredToken)
    ensures r == Unauthorized(TokenRevoked) <==>
      && BearerToken(authorization).Some?
      && verify(BearerToken(authorization).value).Some?
      && BearerToken(authorization).value in blacklistedTokens
  {
    if !Truthy(authorization) then Unauthorized(NoTokenProvided)
    else
      var fields := Split(authorization.value, ' ');
      if |fields| < 2 || fields[1] == "" then Unauthorized(MalformedToken)
      else
        var token := fields[1];
        match verify(token)
        case None => Unauthorized(InvalidOrExpiredToken)
        case Some(decoded) =>
          if token in blacklistedTokens then Unauthorized(TokenRevoked) else Next(decoded)
  }

  /** `"Bearer"` alone is malformed, not missing. */
  lemma SchemeAloneIsMalformed(blacklistedTokens: set<string>, verify: Verifier)
    ensures Authenticate(Some("Bearer"), blacklistedTokens, verify) == Unauthorized(MalformedToken)
  {
    assert ' ' !in "Bearer";
    SplitPrefix("Bearer", [], ' ');
    assert "Bearer" + [] == "Bearer";
  }

  /**
   * A revoked token that has also expired is reported as invalid or expired, not as
   * revoked: the signature and expiry check comes first.
   */
  lemma ExpiryReportedBeforeRevocation(token: string, blacklistedTokens: set<string>, verify: Verifier)
    requires token != "" && ' ' !in token
    requires token in blacklistedTokens && verify(token).None?
    ensures Authenticate(Some("Bearer " + token), blacklistedTokens, verify) == Unauthorized(InvalidOrExpiredToken)
  {
    BearerTokenOf("Bearer", token, []);
    assert "Bearer" + " " + token + [] == "Bearer " + token;
  }
}
