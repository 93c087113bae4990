/** `authMiddleware` (src/middleware/auth.ts): guard a route with the bearer token, and
    attach the decoded payload to the request when it verifies. */
module Auth {
  import opened Wrappers
  import opened Jwt
  import opened Bearer

  /** Run the middleware on `req`: the outcome is `Guard`'s, and `req.user` is set to the
      payload exactly when the request is passed on. */
  method AuthMiddleware(req: Request, verify: Verifier) returns (outcome: Outcome)
    modifies req
    ensures outcome == Guard(req.authorization, verify)
    ensures outcome.Next? ==> req.user == Some(outcome.payload)
    ensures outcome.Reject? ==> req.user == old(req.user)
  {
    var token := ExtractToken(req.authorization);
    if token == None || token == Some("") {
      return Reject(401, NoTokenError);
    }
    var verification := verify(token.value);
    if verification.Failed? {
      return Reject(401, InvalidTokenError);
    }
    req.user := Some(verification.payload);
    outcome := Next(verification.payload);
  }
}
