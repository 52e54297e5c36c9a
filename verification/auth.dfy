/** `authMiddleware` of apps/server/middlewares/auth_middleware.ts: the gate
    in front of an authenticated route. It reads the `Authorization` header in
    the layout of section 2.1 of RFC 6750 (`Bearer <token>`), checks that a
    signing secret is configured, verifies the token and either hands the
    request on with the token's subject or sends one error response. */
module Auth {
  import opened Outcomes
  import opened Js
  import opened Jwt
  import opened Http
  import opened Cascade

  /** The gate's one effect on a request: `next()` with `req.userId` set, or
      a response sent. Being a single value, it can never be both or neither. */
  datatype GateOutcome = Next(userId: Value) | Reject(response: Response)

  /** The credential scheme prefix, matched case-sensitively with its space. */
  const BearerPrefix: string := "Bearer "

  /** `authHeader.split(' ')[1]`; `None` is `undefined` (no second piece). */
  function BearerToken(header: string): Option<string> {
    var parts := Split(header, ' ');
    if |parts| > 1 then Some(parts[1]) else None
  }

  /** The token a well-formed header presents, read directly off the header:
      the text after the prefix up to the next space, when it is non-empty. */
  function PresentedToken(header: Option<string>): Option<string> {
    if NonEmpty(header) && StartsWith(header.value, BearerPrefix)
       && TakeUntil(header.value[|BearerPrefix|..], ' ') != ""
    then Some(TakeUntil(header.value[|BearerPrefix|..], ' '))
    else None
  }

  /** After the prefix, `split(' ')[1]` is the text up to the next space; so
      "Bearer " alone or followed by a second space yields the empty string. */
  lemma {:induction false} BearerTokenAfterPrefix(header: string)
    requires StartsWith(header, BearerPrefix)
    ensures BearerToken(header) == Some(TakeUntil(header[|BearerPrefix|..], ' '))
  {
    var rest := header[|BearerPrefix|..];
    assert header == "Bearer" + [' '] + rest;
    SplitAfterWord("Bearer", ' ', rest);
    SplitHead(rest, ' ');
  }

  /** The classification the `catch` block applies, as an ordered table:
      error names first, then message fragments. */
  const VerifyErrorRules: seq<Rule> := [
    Rule(NameIs("TokenExpiredError"), Fail(401, "Token expired")),
    Rule(NameIs("JsonWebTokenError"), Fail(401, "Invalid token")),
    Rule(NameIs("NotBeforeError"), Fail(401, "Token not active")),
    Rule(MessageIncludes("jwt malformed"), Fail(401, "Malformed token")),
    Rule(MessageIncludes("invalid signature"), Fail(401, "Invalid token signature"))
  ]

  /** The `catch` block of `authMiddleware`: a recognised error is a 401 with
      its message, anything else a 500. */
  function ClassifyVerifyError(e: Thrown): (r: Response)
    ensures r.status == 401 || r == Fail(500, "Authentication error")
    ensures !IsError(e) ==> r == Fail(500, "Authentication error")
    ensures IsError(e) && e.name == "TokenExpiredError" ==> r == Fail(401, "Token expired")
    ensures IsError(e) && e.name == "JsonWebTokenError" ==> r == Fail(401, "Invalid token")
    ensures IsError(e) && e.name == "NotBeforeError" ==> r == Fail(401, "Token not active")
  {
    if IsError(e) then
      if e.name == "TokenExpiredError" then Fail(401, "Token expired")
      else if e.name == "JsonWebTokenError" then Fail(401, "Invalid token")
      else if e.name == "NotBeforeError" then Fail(401, "Token not active")
      else if Includes(e.message, "jwt malformed") then Fail(401, "Malformed token")
      else if Includes(e.message, "invalid signature") then Fail(401, "Invalid token signature")
      else Fail(500, "Authentication error")
    else
      Fail(500, "Authentication error")
  }

  /** The cascade is exactly the rule table read in order: the first
      matching rule's 401, or 500 "Authentication error" when none matches
      (always so for a thrown non-`Error`). */
  lemma ClassifyFollowsTable(e: Thrown)
    ensures ClassifyVerifyError(e) == Classify(VerifyErrorRules, Fail(500, "Authentication error"), e)
  {
    var rs := VerifyErrorRules;
    assert rs[1..] == rs[1..5];
    assert FirstMatch(rs[1..], e) == if Matches(rs[1].test, e) then Some(rs[1].response) else FirstMatch(rs[2..], e);
    assert FirstMatch(rs[2..], e) == if Matches(rs[2].test, e) then Some(rs[2].response) else FirstMatch(rs[3..], e);
    assert FirstMatch(rs[3..], e) == if Matches(rs[3].test, e) then Some(rs[3].response) else FirstMatch(rs[4..], e);
    assert FirstMatch(rs[4..], e) == if Matches(rs[4].test, e) then Some(rs[4].response) else FirstMatch(rs[5..], e);
    assert FirstMatch(rs[5..], e) == None;
  }

  /** `authMiddleware(req, res, next)` for the request's `Authorization`
      header, the configured secret (`JWT_SECRET`) and `jwt.verify`. */
  function Authenticate(header: Option<string>, secret: Option<string>, verify: Verifier): (o: GateOutcome)
    // Header checks come first, whatever the secret and the verifier.
    ensures !NonEmpty(header) ==> o == Reject(Fail(401, "Authorization header required"))
    ensures NonEmpty(header) && !StartsWith(header.value, BearerPrefix) ==>
      o == Reject(Fail(401, "Bearer token required"))
    ensures (NonEmpty(header) && StartsWith(header.value, BearerPrefix)
      && TakeUntil(header.value[|BearerPrefix|..], ' ') == "") ==>
      o == Reject(Fail(401, "Token not provided"))
    ensures PresentedToken(header).None? ==> o.Reject? && o.response.status == 401
    // A well-formed header without a secret is the server's fault.
    ensures PresentedToken(header).Some? && !NonEmpty(secret) ==>
      o == Reject(Fail(500, "Server configuration error"))
    // Verification decides the rest.
    ensures PresentedToken(header).Some? && NonEmpty(secret) ==>
      match verify(PresentedToken(header).value, secret.value)
      case Verified(d) =>
        if Present(d.sub) then o == Next(d.sub.value)
        else o == Reject(Fail(401, "Invalid token payload"))
      case VerifyFailed(e) => o == Reject(ClassifyVerifyError(e))
    ensures o.Next? <==>
      && PresentedToken(header).Some? && NonEmpty(secret)
      && verify(PresentedToken(header).value, secret.value).Verified?
      && Present(verify(PresentedToken(header).value, secret.value).payload.sub)
  {
    if !NonEmpty(header) then
      Reject(Fail(401, "Authorization header required"))
    else if !StartsWith(header.value, BearerPrefix) then
      Reject(Fail(401, "Bearer token required"))
    else
      var token := BearerToken(header.value);
      BearerTokenAfterPrefix(header.value);
      if !NonEmpty(token) then
        Reject(Fail(401, "Token not provided"))
      else if !NonEmpty(secret) then
        Reject(Fail(500, "Server configuration error"))
      else
        match verify(token.value, secret.value)
        case VerifyFailed(e) => Reject(ClassifyVerifyError(e))
        case Verified(d) =>
          if !Present(d.sub) then Reject(Fail(401, "Invalid token payload"))
          else Next(d.sub.value)
  }

  /** A JsonWebTokenError is "Invalid token" even when its message names a
      malformed token or a bad signature: the name tests take precedence, so
      jsonwebtoken's own errors never reach the message tests. */
  lemma NameTakesPrecedence(message: string, code: Option<string>)
    ensures ClassifyVerifyError(ErrorObject("JsonWebTokenError", message, code))
      == Fail(401, "Invalid token")
  {
  }
}
