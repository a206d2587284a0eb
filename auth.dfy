/**
 * Request gating: the path classification and referer check of middleware.ts
 * and the API guards `checkApiAuth` and `checkAdminApiAuth` of
 * lib/auth-utils.ts. A request counts as same-origin when its `referer`
 * header contains its `host` header, a missing header reading as "".
 * Whether the server runs in production mode is the flag `production`.
 */
module Auth {
  import opened Wrappers
  import Text

  /** The two request headers the checks read; `None` is an absent header. */
  datatype RequestHeaders = RequestHeaders(referer: Option<string>, host: Option<string>)

  /** The value of a request header, "" when it is missing or empty. */
  function HeaderOrEmpty(h: Option<string>): string {
    h.GetOr("")
  }

  /** The `referer` header contains the `host` header, both read as "" when missing. */
  predicate SameOrigin(h: RequestHeaders) {
    Text.Contains(HeaderOrEmpty(h.referer), HeaderOrEmpty(h.host))
  }

  /** The JSON 401 answer `{ error: "Unauthorized" }`. */
  datatype Denial = Unauthorized

  /** `{ authenticated, response }`; the response is `null` when authenticated. */
  datatype AuthResult = AuthResult(authenticated: bool, response: Option<Denial>)

  /** `checkApiAuth`: refused only in production when the referer does not contain the host. */
  function CheckApiAuth(h: RequestHeaders, production: bool): (r: AuthResult)
    ensures !r.authenticated <==> production && !SameOrigin(h)
    ensures r.authenticated <==> r.response == None
  {
    if !SameOrigin(h) && production then AuthResult(false, Some(Unauthorized))
    else AuthResult(true, None)
  }

  /** `checkAdminApiAuth`: the basic check's object on failure, a fresh success object otherwise. */
  function CheckAdminApiAuth(h: RequestHeaders, production: bool): (r: AuthResult)
    ensures r.authenticated == CheckApiAuth(h, production).authenticated
    ensures !r.authenticated ==> r == CheckApiAuth(h, production)
  {
    var basicCheck := CheckApiAuth(h, production);
    if !basicCheck.authenticated then basicCheck
    else AuthResult(true, None)
  }

  /** The admin check adds nothing: its answer equals the basic check's. */
  lemma AdminCheckIsBasicCheck(h: RequestHeaders, production: bool)
    ensures CheckAdminApiAuth(h, production) == CheckApiAuth(h, production)
  {
  }

  /** A request without a host header always passes: every referer contains "". */
  lemma MissingHostAuthenticates(referer: Option<string>, host: Option<string>, production: bool)
    requires host == None || host == Some("")
    ensures CheckApiAuth(RequestHeaders(referer, host), production).authenticated
  {
    Text.ContainsEmpty(HeaderOrEmpty(referer));
  }

  /** `isApiPath`: under /api but not the login or logout endpoints. */
  predicate IsApiPath(path: string) {
    Text.StartsWith(path, "/api") && !Text.StartsWith(path, "/api/login") && !Text.StartsWith(path, "/api/logout")
  }

  datatype Decision = Next | Blocked

  /** `middleware`: blocks with 401 only a cross-origin API request in production. */
  function Middleware(path: string, h: RequestHeaders, production: bool): (d: Decision)
    ensures d == Blocked <==> IsApiPath(path) && production && !SameOrigin(h)
  {
    if IsApiPath(path) && !SameOrigin(h) && production then Blocked else Next
  }

  /** Outside production the middleware never blocks. */
  lemma NeverBlocksOutsideProduction(path: string, h: RequestHeaders)
    ensures Middleware(path, h, false) == Next
  {
  }

  /** Page paths pass whatever the headers: `/admin` and `/dashboard` are not API paths. */
  lemma PagePathsPass(path: string, h: RequestHeaders, production: bool)
    requires Text.StartsWith(path, "/admin") || Text.StartsWith(path, "/dashboard")
    ensures Middleware(path, h, production) == Next
  {
    if Text.StartsWith(path, "/api") {
      CharOfPrefix(path, "/api", 1);
      CharOfPrefix(path, "/api", 2);
      if Text.StartsWith(path, "/admin") {
        CharOfPrefix(path, "/admin", 2);
      } else {
        CharOfPrefix(path, "/dashboard", 1);
      }
    }
  }

  lemma CharOfPrefix(s: string, prefix: string, i: nat)
    requires Text.StartsWith(s, prefix) && i < |prefix|
    ensures s[i] == prefix[i]
  {
    assert s[..|prefix|][i] == s[i];
  }

  /** The login and logout endpoints are never blocked. */
  lemma LoginAndLogoutPass(path: string, h: RequestHeaders, production: bool)
    requires Text.StartsWith(path, "/api/login") || Text.StartsWith(path, "/api/logout")
    ensures Middleware(path, h, production) == Next
  {
  }

  /** On an API path the middleware blocks exactly when `checkApiAuth` refuses. */
  lemma MiddlewareAgreesWithCheckApiAuth(path: string, h: RequestHeaders, production: bool)
    requires IsApiPath(path)
    ensures Middleware(path, h, production) == Blocked <==> !CheckApiAuth(h, production).authenticated
  {
  }

  /** A request whose host is missing passes the middleware on every path. */
  lemma MissingHostPasses(path: string, referer: Option<string>, production: bool)
    ensures Middleware(path, RequestHeaders(referer, None), production) == Next
  {
    Text.ContainsEmpty(HeaderOrEmpty(referer));
  }
}
