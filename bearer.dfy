/** Token extraction and the guard shared by `authMiddleware` (src/middleware/auth.ts) and
    `verifyToken` (src/helper/token.ts). Both take the Authorization header, remove the
    first occurrence of "Bearer " from it, answer 401 when nothing is left, and otherwise
    hand the rest to the verifier. */
module Bearer {
  import opened Wrappers
  import opened JsText
  import opened Jwt

  const Scheme := "Bearer "
  const NoTokenError := "No token provided"
  const InvalidTokenError := "Invalid token"

  /** `req.header("Authorization")?.replace("Bearer ", "")`: absent when the header is, and
      otherwise the header with its first "Bearer " removed, wherever it stands. */
  function ExtractToken(header: Option<string>): (token: Option<string>)
    ensures header.None? <==> token.None?
  {
    match header
    case None => None
    case Some(h) => Some(ReplaceFirst(h, Scheme, ""))
  }

  /** How a middleware ends: pass the request on, or answer with a status and `{ error }`. */
  datatype Outcome = Next(payload: Payload) | Reject(status: int, error: string)

  /** The decision both middlewares make: no token (absent or empty) is refused without
      consulting the verifier; a token the verifier rejects is refused; otherwise the
      request passes on with the decoded payload. */
  function Guard(header: Option<string>, verify: Verifier): (r: Outcome)
    ensures r.Reject? ==> r.status == 401
    ensures (ExtractToken(header) == None || ExtractToken(header) == Some("")) <==> r == Reject(401, NoTokenError)
    ensures r.Next? <==> (exists t :: ExtractToken(header) == Some(t) && t != "" && verify(t).Verified?)
    ensures r.Next? ==> r.payload == verify(ExtractToken(header).value).payload
    ensures (exists t :: ExtractToken(header) == Some(t) && t != "" && verify(t).Failed?)
      <==> r == Reject(401, InvalidTokenError)
    ensures r.Reject? ==> r.error == NoTokenError || r.error == InvalidTokenError
  {
    match ExtractToken(header)
    case None => Reject(401, NoTokenError)
    case Some(token) =>
      if token == "" then Reject(401, NoTokenError)
      else match verify(token)
        case Verified(p) => Next(p)
        case Failed(_, _) => Reject(401, InvalidTokenError)
  }

  /** A request whose `user` field a middleware fills in. */
  class Request {
    const authorization: Option<string>
    var user: Option<Payload>

    constructor (authorization: Option<string>)
      ensures this.authorization == authorization && user == None
    {
      this.authorization := authorization;
      user := None;
    }
  }

  /** Without a token the verifier is never consulted: the answer is the same whatever it
      would have said. */
  lemma NoTokenIgnoresVerifier(header: Option<string>, v1: Verifier, v2: Verifier)
    requires ExtractToken(header) == None || ExtractToken(header) == Some("")
    ensures Guard(header, v1) == Guard(header, v2) == Reject(401, NoTokenError)
  {
  }

  /** A header that is exactly the scheme word leaves an empty token and is refused. */
  lemma SchemeOnlyHeaderRefused(verify: Verifier)
    ensures Guard(Some(Scheme), verify) == Reject(401, NoTokenError)
  {
    ReplaceFirstAt("", Scheme, "", "");
    assert "" + Scheme + "" == Scheme;
  }

  /** The usual header: "Bearer " followed by the token gives the token, even if the token
      itself contains "Bearer " (only the first occurrence is removed). */
  lemma StandardHeader(token: string)
    ensures ExtractToken(Some(Scheme + token)) == Some(token)
  {
    ReplaceFirstAt("", Scheme, token, "");
    assert "" + Scheme + token == Scheme + token;
    assert "" + "" + token == token;
  }

  /** The removal is not anchored at the start of the header: "xBearer y" gives "xy". */
  lemma UnanchoredRemoval()
    ensures ExtractToken(Some("xBearer y")) == Some("xy")
  {
    var h := "x" + Scheme + "y";
    assert !OccursAt(h, Scheme, 0) by {
      assert h[0..|Scheme|][0] == 'x';
    }
    ReplaceFirstAt("x", Scheme, "y", "");
    assert h == "xBearer y";
    assert "x" + "" + "y" == "xy";
  }

  /** A header without "Bearer " reaches the verifier unchanged. */
  lemma HeaderWithoutScheme(h: string, verify: Verifier)
    requires !Contains(h, Scheme) && h != ""
    ensures ExtractToken(Some(h)) == Some(h)
    ensures verify(h).Verified? ==> Guard(Some(h), verify) == Next(verify(h).payload)
    ensures verify(h).Failed? ==> Guard(Some(h), verify) == Reject(401, InvalidTokenError)
  {
    ReplaceFirstAbsent(h, Scheme, "");
  }
}
