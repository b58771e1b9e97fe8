/** `authMiddleware` of `express-server/src/middlewares/authMiddleware.ts`:
    which requests are public, and for the others what the session cookie
    and its token decide. Every request gets exactly one outcome: `next()`
    or one error response.

    Verifying the token with the server's secret (`jwt.verify`) is a
    parameter that gives the payload, "expired" or "invalid". */
module Auth {
  import opened Wrappers
  import opened Strings

  datatype Endpoint = Endpoint(path: string, httpMethod: string)

  const PublicEndpoints: seq<Endpoint> := [Endpoint("/files", "GET"), Endpoint("/auth/*", "POST")]

  const AuthToken := "authToken"

  /** An endpoint matches a request exactly, or, when its path ends in `*`,
      for the same method and any path starting with the text before the
      `*`. */
  predicate Matches(e: Endpoint, path: string, httpMethod: string) {
    (path == e.path && httpMethod == e.httpMethod) ||
    (EndsWith(e.path, "*") && httpMethod == e.httpMethod && StartsWith(path, e.path[..|e.path| - 1]))
  }

  /** `publicEndpoints.some(…)` */
  function AnyMatches(es: seq<Endpoint>, path: string, httpMethod: string): (b: bool)
    ensures b <==> exists i :: 0 <= i < |es| && Matches(es[i], path, httpMethod)
    decreases |es|
  {
    if es == [] then false
    else Matches(es[0], path, httpMethod) || AnyMatches(es[1..], path, httpMethod)
  }

  predicate IsPublic(path: string, httpMethod: string) {
    AnyMatches(PublicEndpoints, path, httpMethod)
  }

  /** The public requests are GET /files exactly, and POST on any path under
      /auth/; so GET /files/x and GET /auth/login are not public. */
  lemma PublicRequests(path: string, httpMethod: string)
    ensures IsPublic(path, httpMethod) <==>
      (path == "/files" && httpMethod == "GET") || (httpMethod == "POST" && StartsWith(path, "/auth/"))
    ensures IsPublic("/files", "GET") && IsPublic("/auth/login", "POST")
    ensures !IsPublic("/files/x", "GET") && !IsPublic("/auth/login", "GET")
  {
    assert EndsWith("/auth/*", "*");
    assert !EndsWith("/files", "*");
    assert "/auth/*"[..6] == "/auth/";
    assert !StartsWith("/files", "/auth/") by { assert "/files"[1] != "/auth/"[1]; }
  }

  /** What `jwt.verify` gives: the payload, or the error it throws. */
  datatype Verdict = Verified(user: string) | Expired | Invalid

  /** `next()`, with the user set on the request when a token was
      verified, or one error response. */
  datatype Outcome = Next(user: Option<string>) | Reject(status: int, error: string, code: string)

  const NoCookies := Reject(400, "No cookies provided", "NO_COOKIES")
  const NoToken := Reject(401, "No token provided", "INVALID_TOKEN")
  const TokenExpired := Reject(401, "Token expired", "TOKEN_EXPIRED")
  const Forbidden := Reject(403, "Forbidden", "FORBIDDEN")

  /** The request's token when its `authToken` cookie is set and truthy. */
  function Token(cookies: map<string, string>): Option<string> {
    if AuthToken in cookies && cookies[AuthToken] != "" then Some(cookies[AuthToken]) else None
  }

  /** The middleware: `cookies` is `req.cookies` (absent when no cookie
      parser ran). */
  function Decide(path: string, httpMethod: string, cookies: Option<map<string, string>>,
                  verify: string -> Verdict): (o: Outcome)
    ensures o.Next? <==> (IsPublic(path, httpMethod) ||
                          (cookies.Some? && Token(cookies.value).Some? && verify(Token(cookies.value).value).Verified?))
    ensures o.Next? && o.user.Some? ==> !IsPublic(path, httpMethod)
    ensures o.Reject? ==> o in {NoCookies, NoToken, TokenExpired, Forbidden}
    ensures o == NoCookies <==> !IsPublic(path, httpMethod) && cookies.None?
    ensures o == NoToken <==> !IsPublic(path, httpMethod) && cookies.Some? && Token(cookies.value).None?
  {
    if IsPublic(path, httpMethod) then Next(None)
    else if cookies.None? then NoCookies
    else
      match Token(cookies.value)
      case None => NoToken
      case Some(token) =>
        match verify(token)
        case Verified(user) => Next(Some(user))
        case Expired => TokenExpired
        case Invalid => Forbidden
  }

  /** Public requests go straight to `next`: neither the cookies nor the
      verifier are looked at. */
  lemma PublicIgnoresCookies(path: string, httpMethod: string, c1: Option<map<string, string>>,
                             c2: Option<map<string, string>>, v1: string -> Verdict, v2: string -> Verdict)
    requires IsPublic(path, httpMethod)
    ensures Decide(path, httpMethod, c1, v1) == Decide(path, httpMethod, c2, v2) == Next(None)
  {
  }

  /** For a request that is not public and carries a token, the verdict
      decides: the payload becomes `req.user`, an expired token is 401
      TOKEN_EXPIRED and any other failure 403 FORBIDDEN. */
  lemma TokenDecides(path: string, httpMethod: string, cookies: map<string, string>, verify: string -> Verdict)
    requires !IsPublic(path, httpMethod) && Token(cookies).Some?
    ensures var o := Decide(path, httpMethod, Some(cookies), verify);
      match verify(Token(cookies).value)
      case Verified(user) => o == Next(Some(user))
      case Expired => o == TokenExpired && o.status == 401
      case Invalid => o == Forbidden && o.status == 403
  {
  }
}
