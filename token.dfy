/** The token helpers of src/helper/token.ts: the `verifyToken` middleware, which behaves as
    `authMiddleware` does, and `verifyTokenEmail`, which checks the token of an email link. */
module Token {
  import opened Wrappers
  import opened Jwt
  import opened Bearer

  /** `verifyToken`: the same extraction and guard as `authMiddleware`; on success the
      payload is attached to `req.user`. */
  method VerifyToken(req: Request, verify: Verifier) returns (outcome: Outcome)
    modifies req
    ensures outcome == Guard(req.authorization, verify)
    ensures outcome.Next? ==> req.user == Some(outcome.payload)
    ensures outcome.Reject? ==> req.user == old(req.user)
  {
    var token := ExtractToken(req.authorization);
    if token.None? || token.value == "" {
      outcome := Reject(401, NoTokenError);
    } else {
      match verify(token.value)
      case Verified(p) =>
        req.user := Some(p);
        outcome := Next(p);
      case Failed(_, _) =>
        outcome := Reject(401, InvalidTokenError);
    }
  }

  /** What `verifyTokenEmail` gives its caller: `null`, the decoded payload, or the
      verifier's error thrown on. */
  datatype EmailCheck = NoToken | Decoded(payload: Payload) | Thrown(name: string, message: string)

  /** `verifyTokenEmail(token)`: an empty token gives `null` without verification; a token
      the verifier rejects rethrows its error rather than giving `null`. */
  function VerifyTokenEmail(token: string, verify: Verifier): (r: EmailCheck)
    ensures token == "" <==> r == NoToken
    ensures token != "" && verify(token).Verified? ==> r == Decoded(verify(token).payload)
    ensures token != "" && verify(token).Failed? ==> r == Thrown(verify(token).name, verify(token).message)
  {
    if token == "" then NoToken
    else match verify(token)
      case Verified(p) => Decoded(p)
      case Failed(name, message) => Thrown(name, message)
  }

  /** The empty token is answered without the verifier. */
  lemma EmptyEmailTokenIgnoresVerifier(v1: Verifier, v2: Verifier)
    ensures VerifyTokenEmail("", v1) == VerifyTokenEmail("", v2) == NoToken
  {
  }

  /** The two helpers treat a rejected token differently: the middleware answers 401
      "Invalid token", the email check passes the verifier's error on. */
  lemma RejectedTokenHandledDifferently(token: string, verify: Verifier)
    requires token != "" && verify(token).Failed?
    ensures Guard(Some(Scheme + token), verify) == Reject(401, InvalidTokenError)
    ensures VerifyTokenEmail(token, verify).Thrown?
  {
    StandardHeader(token);
  }

  /** On a verified token the two helpers agree on the payload. */
  lemma VerifiedTokenSamePayload(token: string, verify: Verifier)
    requires token != "" && verify(token).Verified?
    ensures Guard(Some(Scheme + token), verify) == Next(verify(token).payload)
    ensures VerifyTokenEmail(token, verify) == Decoded(verify(token).payload)
  {
    StandardHeader(token);
  }
}
