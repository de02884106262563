/** The front door of src/index.ts: which handler a request reaches, the
    CORS decoration of answers, and the guard of the protected routes.
    What `serveFrontend` answers (static files or the single-page app) is
    not modelled; a request sent there is the answer `Frontend(path)`. */
module Routes {
  import opened Util
  import opened Http
  import opened TunnelServer
  import opened Proxy

  // ---------------------------------------------------------------------
  // CORS
  // ---------------------------------------------------------------------

  const ALLOW_ORIGIN := "access-control-allow-origin"
  const ALLOW_METHODS := "access-control-allow-methods"
  const ALLOW_HEADERS := "access-control-allow-headers"

  /** `corsHeaders()`, in its order of entries. */
  const CORS_HEADERS: seq<(string, string)> := [
    (ALLOW_ORIGIN, "*"),
    (ALLOW_METHODS, "GET, POST, PUT, DELETE, OPTIONS"),
    (ALLOW_HEADERS, "Content-Type, Authorization")
  ]

  /** `response` with the CORS headers set on a copy of its headers. */
  function Cors(response: HttpResponse): HttpResponse {
    response.(headers := SetAll(response.headers, CORS_HEADERS))
  }

  /** `withCors(response)`: the `forEach` over the CORS entries. */
  method WithCors(response: HttpResponse) returns (r: HttpResponse)
    ensures r == Cors(response)
  {
    var headers := ApplyHeaders(response.headers, CORS_HEADERS);
    r := HttpResponse(response.status, response.statusText, headers, response.body);
  }

  /** `withCors` keeps status, status text, body and every other header, and
      sets exactly the three CORS headers, overwriting same-named ones. */
  lemma CorsSetsExactlyThree(response: HttpResponse)
    ensures var r := Cors(response);
      && r.status == response.status && r.statusText == response.statusText && r.body == response.body
      && r.headers.Keys == response.headers.Keys + {ALLOW_ORIGIN, ALLOW_METHODS, ALLOW_HEADERS}
      && r.headers[ALLOW_ORIGIN] == "*"
      && r.headers[ALLOW_METHODS] == "GET, POST, PUT, DELETE, OPTIONS"
      && r.headers[ALLOW_HEADERS] == "Content-Type, Authorization"
      && forall name :: name in response.headers && name !in {ALLOW_ORIGIN, ALLOW_METHODS, ALLOW_HEADERS} ==>
           r.headers[name] == response.headers[name]
  {
    var base := response.headers;
    SetAllKeys(base, CORS_HEADERS);
    assert (set i | 0 <= i < |CORS_HEADERS| :: CORS_HEADERS[i].0) == {ALLOW_ORIGIN, ALLOW_METHODS, ALLOW_HEADERS} by {
      assert CORS_HEADERS[0].0 == ALLOW_ORIGIN && CORS_HEADERS[1].0 == ALLOW_METHODS && CORS_HEADERS[2].0 == ALLOW_HEADERS;
    }
    SetAllLastWins(base, CORS_HEADERS, 0);
    SetAllLastWins(base, CORS_HEADERS, 1);
    SetAllLastWins(base, CORS_HEADERS, 2);
    forall name | name in base && name !in {ALLOW_ORIGIN, ALLOW_METHODS, ALLOW_HEADERS}
      ensures SetAll(base, CORS_HEADERS)[name] == base[name]
    {
      SetAllKeeps(base, CORS_HEADERS, name);
    }
  }

  /** `corsResponse()`: the answer to every preflight. */
  function CorsResponse(): (r: HttpResponse)
    ensures r.status == 204 && r.body == NoBody
    ensures r.headers.Keys == {ALLOW_ORIGIN, ALLOW_METHODS, ALLOW_HEADERS}
    ensures r.headers[ALLOW_ORIGIN] == "*"
  {
    CorsSetsExactlyThree(HttpResponse(204, "", map[], NoBody));
    Cors(HttpResponse(204, "", map[], NoBody))
  }

  // ---------------------------------------------------------------------
  // The route table
  // ---------------------------------------------------------------------

  /** Where `fetch` sends a request. Handlers that take an id carry the
      number read from the path. */
  datatype Route =
    | Preflight
    | Upgrade
    | ProxyRoute(hostname: string)
    | Register | Login | Me
    | ListTokens | CreateToken | RevokeToken(tokenId: nat)
    | ListTunnels | Stats | DisconnectTunnel(tunnelId: nat)
    | ListDomains | AddDomain | DeleteDomain(domainId: nat) | VerifyDomain(domainId: nat)
    | Frontend(path: string)

  /** The condition of the proxy branch: the host's first label is
      non-empty, is not "localhost" and is not the whole host, and the path
      lies outside `/api/` and `/_tunnel/`. */
  predicate ProxyBranch(path: string, hostname: string) {
    var subdomain := FirstLabel(hostname);
    && subdomain != ""
    && subdomain != "localhost"
    && subdomain != hostname
    && !StartsWith(path, "/api/")
    && !StartsWith(path, "/_tunnel/")
  }

  /** The third host condition is "the host has a dot". */
  lemma ProxyBranchNeedsDot(path: string, hostname: string)
    ensures ProxyBranch(path, hostname) <==>
      && FirstLabel(hostname) != "" && FirstLabel(hostname) != "localhost"
      && !NoChar(hostname, '.')
      && !StartsWith(path, "/api/") && !StartsWith(path, "/_tunnel/")
  {
    FirstLabelIsWholeIffNoDot(hostname);
  }

  /** The id a path of the form `prefix` digits `suffix` names
      (`path.match(/^prefix(\d+)suffix$/)` followed by `parseInt`). */
  function MatchId(path: string, prefix: string, suffix: string): (r: Option<nat>)
    ensures r.Some? ==> exists d :: IsDigits(d) && path == prefix + d + suffix && r.value == DigitsValue(d)
  {
    if |path| >= |prefix| + |suffix| && path[..|prefix|] == prefix && path[|path| - |suffix|..] == suffix
      && IsDigits(path[|prefix|..|path| - |suffix|])
    then
      var d := path[|prefix|..|path| - |suffix|];
      assert path == prefix + d + suffix;
      Some(DigitsValue(d))
    else None
  }

  /** Every digit string after the prefix is matched, and read as its value. */
  lemma MatchIdComplete(prefix: string, d: string, suffix: string)
    requires IsDigits(d)
    ensures MatchId(prefix + d + suffix, prefix, suffix) == Some(DigitsValue(d))
  {
    var path := prefix + d + suffix;
    assert path[..|prefix|] == prefix;
    assert path[|path| - |suffix|..] == suffix;
    assert path[|prefix|..|path| - |suffix|] == d;
  }

  /** Whether a method and path name one of the API routes `fetch` lists,
      exact paths and id paths alike. */
  predicate ApiRoute(httpMethod: string, path: string) {
    || (path == "/api/auth/register" && httpMethod == "POST")
    || (path == "/api/auth/login" && httpMethod == "POST")
    || (path == "/api/auth/me" && httpMethod == "GET")
    || (path == "/api/tokens" && (httpMethod == "GET" || httpMethod == "POST"))
    || (MatchId(path, "/api/tokens/", "").Some? && httpMethod == "DELETE")
    || (path == "/api/tunnels" && httpMethod == "GET")
    || (path == "/api/stats" && httpMethod == "GET")
    || (MatchId(path, "/api/tunnels/", "").Some? && httpMethod == "DELETE")
    || (path == "/api/domains" && (httpMethod == "GET" || httpMethod == "POST"))
    || (MatchId(path, "/api/domains/", "").Some? && httpMethod == "DELETE")
    || (MatchId(path, "/api/domains/", "/verify").Some? && httpMethod == "POST")
  }

  /** `fetch`'s dispatch on the method, the URL path and the `Host` header. */
  function Dispatch(httpMethod: string, path: string, hostname: string): (r: Route)
    ensures httpMethod == "POST" && path == "/api/auth/register" ==> r == Register
    ensures httpMethod == "POST" && path == "/api/auth/login" ==> r == Login
    ensures httpMethod == "GET" && path == "/api/auth/me" ==> r == Me
    ensures httpMethod == "GET" && path == "/api/tokens" ==> r == ListTokens
    ensures httpMethod == "POST" && path == "/api/tokens" ==> r == CreateToken
    ensures httpMethod == "GET" && path == "/api/tunnels" ==> r == ListTunnels
    ensures httpMethod == "GET" && path == "/api/stats" ==> r == Stats
    ensures httpMethod == "GET" && path == "/api/domains" ==> r == ListDomains
    ensures httpMethod == "POST" && path == "/api/domains" ==> r == AddDomain
    ensures httpMethod == "OPTIONS" ==> r == Preflight
    ensures httpMethod != "OPTIONS" && path == "/_tunnel/connect" ==> r == Upgrade
    ensures httpMethod != "OPTIONS" && path != "/_tunnel/connect" ==>
      (r.ProxyRoute? <==> ProxyBranch(path, hostname))
    ensures r.ProxyRoute? ==> r.hostname == hostname
    ensures r.Frontend? ==> r.path == path
  {
    if httpMethod == "OPTIONS" then Preflight
    else if path == "/_tunnel/connect" then Upgrade
    else if ProxyBranch(path, hostname) then ProxyRoute(hostname)
    else if path == "/api/auth/register" && httpMethod == "POST" then Register
    else if path == "/api/auth/login" && httpMethod == "POST" then Login
    else if path == "/api/auth/me" && httpMethod == "GET" then Me
    else if path == "/api/tokens" && httpMethod == "GET" then ListTokens
    else if path == "/api/tokens" && httpMethod == "POST" then CreateToken
    else if MatchId(path, "/api/tokens/", "").Some? && httpMethod == "DELETE" then
      RevokeToken(MatchId(path, "/api/tokens/", "").value)
    else if path == "/api/tunnels" && httpMethod == "GET" then ListTunnels
    else if path == "/api/stats" && httpMethod == "GET" then Stats
    else if MatchId(path, "/api/tunnels/", "").Some? && httpMethod == "DELETE" then
      DisconnectTunnel(MatchId(path, "/api/tunnels/", "").value)
    else if path == "/api/domains" && httpMethod == "GET" then ListDomains
    else if path == "/api/domains" && httpMethod == "POST" then AddDomain
    else if MatchId(path, "/api/domains/", "").Some? && httpMethod == "DELETE" then
      DeleteDomain(MatchId(path, "/api/domains/", "").value)
    else if MatchId(path, "/api/domains/", "/verify").Some? && httpMethod == "POST" then
      VerifyDomain(MatchId(path, "/api/domains/", "/verify").value)
    else Frontend(path)
  }

  /** Outside preflights, the upgrade path and the proxy branch, only paths
      under `/api/` reach a handler: everything else is the frontend. */
  lemma NonApiPathIsFrontend(httpMethod: string, path: string, hostname: string)
    requires httpMethod != "OPTIONS" && path != "/_tunnel/connect"
    requires !ProxyBranch(path, hostname) && !StartsWith(path, "/api/")
    ensures Dispatch(httpMethod, path, hostname) == Frontend(path)
  {
    NoMatchOutsideApi(path, "/api/tokens/", "");
    NoMatchOutsideApi(path, "/api/tunnels/", "");
    NoMatchOutsideApi(path, "/api/domains/", "");
    NoMatchOutsideApi(path, "/api/domains/", "/verify");
  }

  lemma NoMatchOutsideApi(path: string, prefix: string, suffix: string)
    requires StartsWith(prefix, "/api/") && !StartsWith(path, "/api/")
    ensures MatchId(path, prefix, suffix).None?
  {
  }

  /** A path under `/api/` never takes the proxy branch. */
  lemma ApiPathNotProxied(path: string, hostname: string)
    requires StartsWith(path, "/api/")
    ensures !ProxyBranch(path, hostname)
  {
  }

  /** An API request that is not a preflight falls through to the frontend
      exactly when its method and path name none of the API routes: a wrong
      method on a known path (GET /api/auth/register), an unknown path
      (POST /api/nope) and an id that is not a number (DELETE
      /api/tokens/abc) all reach it. */
  lemma {:induction false} UnmatchedApiRequestIsFrontend(httpMethod: string, path: string, hostname: string)
    requires httpMethod != "OPTIONS" && StartsWith(path, "/api/")
    ensures Dispatch(httpMethod, path, hostname) == Frontend(path) <==> !ApiRoute(httpMethod, path)
  {
    ApiPathNotProxied(path, hostname);
    assert path != "/_tunnel/connect" by {
      assert path[1] == 'a';
    }
  }

  /** Three requests that fall through to the frontend. */
  lemma UnmatchedApiExamples(hostname: string)
    ensures Dispatch("GET", "/api/auth/register", hostname) == Frontend("/api/auth/register")
    ensures Dispatch("POST", "/api/nope", hostname) == Frontend("/api/nope")
    ensures Dispatch("DELETE", "/api/tokens/abc", hostname) == Frontend("/api/tokens/abc")
  {
    UnmatchedApiRequestIsFrontend("GET", "/api/auth/register", hostname);
    UnmatchedApiRequestIsFrontend("POST", "/api/nope", hostname);
    UnmatchedApiRequestIsFrontend("DELETE", "/api/tokens/abc", hostname);
    assert !IsDigit("/api/tokens/abc"[12]);
  }

  /** The id routes dispatch with the number their path spells. */
  lemma RevokeTokenRoute(n: nat, hostname: string)
    ensures Dispatch("DELETE", "/api/tokens/" + NatToDigits(n), hostname) == RevokeToken(n)
  {
    var d := NatToDigits(n);
    var path := "/api/tokens/" + d;
    DigitsRoundTrip(n);
    MatchIdComplete("/api/tokens/", d, "");
    assert path + "" == path;
    assert path[..5] == "/api/";
    ApiPathNotProxied(path, hostname);
  }

  lemma DisconnectTunnelRoute(n: nat, hostname: string)
    ensures Dispatch("DELETE", "/api/tunnels/" + NatToDigits(n), hostname) == DisconnectTunnel(n)
  {
    var d := NatToDigits(n);
    var path := "/api/tunnels/" + d;
    DigitsRoundTrip(n);
    MatchIdComplete("/api/tunnels/", d, "");
    assert path + "" == path;
    assert path[..5] == "/api/";
    ApiPathNotProxied(path, hostname);
    assert MatchId(path, "/api/tokens/", "").None? by { assert path[6] != "/api/tokens/"[6]; }
  }

  lemma DeleteDomainRoute(n: nat, hostname: string)
    ensures Dispatch("DELETE", "/api/domains/" + NatToDigits(n), hostname) == DeleteDomain(n)
  {
    var d := NatToDigits(n);
    var path := "/api/domains/" + d;
    DigitsRoundTrip(n);
    MatchIdComplete("/api/domains/", d, "");
    assert path + "" == path;
    assert path[..5] == "/api/";
    ApiPathNotProxied(path, hostname);
    assert MatchId(path, "/api/tokens/", "").None? by { assert path[5] != "/api/tokens/"[5]; }
    assert MatchId(path, "/api/tunnels/", "").None? by { assert path[5] != "/api/tunnels/"[5]; }
  }

  lemma VerifyDomainRoute(n: nat, hostname: string)
    ensures Dispatch("POST", "/api/domains/" + NatToDigits(n) + "/verify", hostname) == VerifyDomain(n)
  {
    var d := NatToDigits(n);
    var path := "/api/domains/" + d + "/verify";
    DigitsRoundTrip(n);
    MatchIdComplete("/api/domains/", d, "/verify");
    assert path[..5] == "/api/";
    ApiPathNotProxied(path, hostname);
  }

  /** An id route asked with any method but its own (and not a preflight)
      reaches no handler: it falls through to the frontend. */
  lemma TokenIdRouteNeedsDelete(m: string, n: nat, hostname: string)
    requires m != "OPTIONS" && m != "DELETE"
    ensures Dispatch(m, "/api/tokens/" + NatToDigits(n), hostname) == Frontend("/api/tokens/" + NatToDigits(n))
  {
    var path := "/api/tokens/" + NatToDigits(n);
    assert path[..5] == "/api/";
    ApiPathNotProxied(path, hostname);
    assert path[11] == '/';
  }

  lemma TunnelIdRouteNeedsDelete(m: string, n: nat, hostname: string)
    requires m != "OPTIONS" && m != "DELETE"
    ensures Dispatch(m, "/api/tunnels/" + NatToDigits(n), hostname) == Frontend("/api/tunnels/" + NatToDigits(n))
  {
    var path := "/api/tunnels/" + NatToDigits(n);
    assert path[..5] == "/api/";
    ApiPathNotProxied(path, hostname);
    assert path[12] == '/';
    assert path[5] != "/api/stats"[5];
  }

  lemma DomainIdRouteNeedsDelete(m: string, n: nat, hostname: string)
    requires m != "OPTIONS" && m != "DELETE"
    ensures Dispatch(m, "/api/domains/" + NatToDigits(n), hostname) == Frontend("/api/domains/" + NatToDigits(n))
  {
    var d := NatToDigits(n);
    var path := "/api/domains/" + d;
    assert path[..5] == "/api/";
    ApiPathNotProxied(path, hostname);
    assert path[12] == '/';
    assert path[|path| - 1] == d[|d| - 1] && IsDigit(d[|d| - 1]);
    assert path[|path| - 7..] != "/verify" by { assert path[|path| - 7..][6] == path[|path| - 1]; }
  }

  lemma VerifyRouteNeedsPost(m: string, n: nat, hostname: string)
    requires m != "OPTIONS" && m != "POST"
    ensures Dispatch(m, "/api/domains/" + NatToDigits(n) + "/verify", hostname)
      == Frontend("/api/domains/" + NatToDigits(n) + "/verify")
  {
    var d := NatToDigits(n);
    var path := "/api/domains/" + d + "/verify";
    assert path[..5] == "/api/";
    ApiPathNotProxied(path, hostname);
    assert path[12] == '/';
    assert !IsDigits(path[13..|path|]) by { assert path[13..|path|][|path| - 14] == 'y'; }
  }

  // ---------------------------------------------------------------------
  // The answers of the first branches
  // ---------------------------------------------------------------------

  /** What a request is answered with: a response, a socket upgrade, or
      `serveFrontend(path)`. */
  datatype Answer = Respond(response: HttpResponse) | Upgraded(ws: SocketId) | ServeFrontend(path: string)

  /** The `data` every upgraded socket starts with. */
  const INITIAL_DATA := TunnelData(0, 0, "", 0, 0, None, false)

  /** The `/_tunnel/connect` branch: `upgraded` is whether `server.upgrade`
      succeeded. */
  method Connect(relay: Relay, upgraded: bool) returns (a: Answer)
    requires relay.Valid()
    modifies relay
    ensures relay.Valid()
    ensures upgraded ==>
      && a.Upgraded? && a.ws !in old(relay.sockets)
      && relay.sockets == old(relay.sockets)[a.ws := INITIAL_DATA]
      && relay.outbox == old(relay.outbox)[a.ws := []]
    ensures !upgraded ==>
      && a == Respond(Cors(HttpResponse(400, "", map[], Text("WebSocket upgrade failed"))))
      && relay.sockets == old(relay.sockets) && relay.outbox == old(relay.outbox)
    ensures relay.activeTunnels == old(relay.activeTunnels)
    ensures relay.customDomainToSubdomain == old(relay.customDomainToSubdomain)
    ensures relay.pendingRequests == old(relay.pendingRequests) && relay.timers == old(relay.timers)
    ensures relay.settled == old(relay.settled) && relay.db == old(relay.db)
  {
    if upgraded {
      var ws := relay.Accept(INITIAL_DATA);
      return Upgraded(ws);
    }
    var r := WithCors(HttpResponse(400, "", map[], Text("WebSocket upgrade failed")));
    a := Respond(r);
  }

  /** `res || serveFrontend(path)` after the proxy: a host with no connected
      tunnel gets the frontend, not an error. */
  function ProxyOrFrontend(res: Option<HttpResponse>, path: string): (a: Answer)
    ensures a.ServeFrontend? <==> res.None?
    ensures a.ServeFrontend? ==> a.path == path
    ensures res.Some? ==> a == Respond(res.value)
  {
    if res.Some? then Respond(res.value) else ServeFrontend(path)
  }

  /** The proxy branch answers with the frontend exactly when the proxy
      found no connected tunnel for the host: an unknown tunnel host gets the
      single-page app, never an error. A forwarded request is answered with
      the proxy's reply or 502, whatever its frame's promise settled as. */
  lemma UnknownTunnelHostGetsFrontend(start: ProxyStart, s: Settlement, path: string)
    ensures ProxyOrFrontend(Outcome(start, s), path) == ServeFrontend(path) <==> start == NotATunnel
    ensures start.Forwarded? ==> ProxyOrFrontend(Outcome(start, s), path) == Respond(ProxyReply(s, start.key))
  {
  }

  // ---------------------------------------------------------------------
  // protectedRoute
  // ---------------------------------------------------------------------

  /** What `authMiddleware` hands back: an error response, or the verified
      JWT's subject. */
  datatype AuthResult = AuthFailure(response: HttpResponse) | Payload(sub: string)

  /** `authMiddleware(req)`: `authorization` is the header, `verify` the
      JWT check (the subject of a token that verifies, `None` otherwise). */
  function AuthMiddleware(authorization: Option<string>, verify: string -> Option<string>): (r: AuthResult)
    ensures (authorization.None? || !StartsWith(authorization.value, "Bearer ")) ==>
      r == AuthFailure(ErrorResponse(401, "Missing or invalid Authorization header"))
    ensures authorization.Some? && StartsWith(authorization.value, "Bearer ") ==>
      var token := authorization.value[7..];
      && (verify(token).None? ==> r == AuthFailure(ErrorResponse(401, "Invalid or expired token")))
      && (verify(token).Some? ==> r == Payload(verify(token).value))
  {
    if authorization.None? || !StartsWith(authorization.value, "Bearer ") then
      AuthFailure(ErrorResponse(401, "Missing or invalid Authorization header"))
    else
      var sub := verify(authorization.value[7..]);
      if sub.None? then AuthFailure(ErrorResponse(401, "Invalid or expired token")) else Payload(sub.value)
  }

  /** The outcome of `protectedRoute` before its handler runs: either the
      CORS-wrapped failure, answered without calling the handler, or the
      user id the handler is called with (`None` for a NaN `parseInt`). */
  datatype Guard = Deny(response: HttpResponse) | Call(userId: Option<int>)

  function ProtectedRoute(auth: AuthResult): (g: Guard)
    ensures auth.AuthFailure? ==> g == Deny(Cors(auth.response))
    ensures auth.Payload? ==> g.Call?
    ensures auth.Payload? && IsDigits(auth.sub) ==> g == Call(Some(DigitsValue(auth.sub)))
  {
    if auth.AuthFailure? then Deny(Cors(auth.response)) else Call(ParseInt(auth.sub))
  }

  /** The server signs `String(user.id)` as the subject, so a token it
      issued reaches the handler with that user's id. */
  lemma IssuedSubjectReachesHandler(userId: nat)
    ensures ProtectedRoute(Payload(NatToDigits(userId))) == Call(Some(userId))
  {
    DigitsRoundTrip(userId);
  }
}
