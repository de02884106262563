/** The reverse proxy of src/tunnel/proxy.ts: a public request is matched
    to a connected tunnel by its host name, turned into a `request` frame on
    that tunnel's socket, and the tunnel's answer (or the failure of the
    promise) is turned back into an HTTP response.

    The proxy runs in two steps around an `await`: `Lookup` decides whether
    the host belongs to a connected tunnel, and `Forward` sends the frame.
    For a request that carries a body the body is read in between, so other
    events (a tunnel closing, say) may run between the two steps. */
module Proxy {
  import opened Util
  import opened Http
  import opened TunnelServer

  const DEFAULT_BASE_DOMAIN := "localhost:3000"
  const TIMEOUT_MESSAGE := "The local application did not respond in time"
  const FAILED_MESSAGE := "Failed to reach the local application"
  const PROXY_HEADER := "x-tunnel-proxy"
  const SUBDOMAIN_HEADER := "x-tunnel-subdomain"

  /** The parts of a public request the proxy reads: its method, the path
      and query of its URL, its headers in the order `forEach` visits them,
      and its body text. */
  datatype InboundRequest = InboundRequest(
    httpMethod: string, pathname: string, search: string,
    headers: seq<(string, string)>, text: string)

  /** The registry key a host name selects: the subdomain its custom-domain
      mapping names when that is non-empty, else the host's first label. */
  function RoutingKey(customDomains: map<string, string>, hostname: string): (key: string)
    ensures hostname in customDomains && customDomains[hostname] != "" ==> key == customDomains[hostname]
    ensures !(hostname in customDomains && customDomains[hostname] != "") ==>
      key <= hostname && NoChar(key, '.') && (key == hostname || hostname[|key|] == '.')
  {
    if hostname in customDomains && customDomains[hostname] != "" then customDomains[hostname]
    else FirstLabel(hostname)
  }

  /** Whether the proxy reads and forwards a body: for every method other
      than GET and HEAD. */
  predicate CarriesBody(httpMethod: string) {
    httpMethod != "GET" && httpMethod != "HEAD"
  }

  /** The `request` frame built for `req` under the fresh id `requestId`. */
  function ForwardedRequest(req: InboundRequest, requestId: string): (t: TunnelRequest)
    ensures t.id == requestId && t.httpMethod == req.httpMethod
    ensures t.url == req.pathname + req.search
    ensures t.body.Some? <==> CarriesBody(req.httpMethod)
    ensures t.body.Some? ==> t.body.value == req.text
    ensures t.headers.Keys == set i | 0 <= i < |req.headers| :: req.headers[i].0
    ensures forall i :: 0 <= i < |req.headers| && (forall j :: i < j < |req.headers| ==> req.headers[j].0 != req.headers[i].0) ==>
      t.headers[req.headers[i].0] == req.headers[i].1
  {
    SetAllKeys(map[], req.headers);
    forall i | 0 <= i < |req.headers| && (forall j :: i < j < |req.headers| ==> req.headers[j].0 != req.headers[i].0)
      ensures SetAll(map[], req.headers)[req.headers[i].0] == req.headers[i].1
    {
      SetAllLastWins(map[], req.headers, i);
    }
    TunnelRequest(requestId, req.httpMethod, req.pathname + req.search, SetAll(map[], req.headers),
      if CarriesBody(req.httpMethod) then Some(req.text) else None)
  }

  /** The first step: the registry key `hostname` selects, when a tunnel is
      connected under it; `None` means "not a tunnel request". */
  function Lookup(relay: Relay, hostname: string): (key: Option<string>)
    reads relay
    ensures key.Some? <==> RoutingKey(relay.customDomainToSubdomain, hostname) in relay.activeTunnels
    ensures key.Some? ==> key.value == RoutingKey(relay.customDomainToSubdomain, hostname)
  {
    var k := RoutingKey(relay.customDomainToSubdomain, hostname);
    if k in relay.activeTunnels then Some(k) else None
  }

  /** The second step: copy the headers, build the frame and hand it to
      `sendTunnelRequest` under `key`; the result is the waiter of its
      promise. */
  method Forward(relay: Relay, key: string, req: InboundRequest, requestId: string) returns (w: Waiter)
    requires relay.Valid()
    modifies relay
    ensures relay.Valid()
    ensures Extends(old(relay.settled), relay.settled)
    ensures w == old(relay.nextWaiter) && relay.nextWaiter == w + 1 && w !in old(relay.settled)
    ensures key !in old(relay.activeTunnels) ==>
      && relay.settled == old(relay.settled)[w := Rejected(NO_ACTIVE_TUNNEL)]
      && relay.pendingRequests == old(relay.pendingRequests) && relay.timers == old(relay.timers)
      && relay.outbox == old(relay.outbox)
    ensures key in old(relay.activeTunnels) ==>
      var c := old(relay.activeTunnels[key]);
      && relay.pendingRequests == old(relay.pendingRequests)[requestId := w]
      && relay.timers == old(relay.timers)[w := requestId]
      && relay.settled == old(relay.settled)
      && relay.outbox == old(relay.outbox)[c.ws := old(relay.outbox[c.ws]) + [Send(RequestFrame(ForwardedRequest(req, requestId)))]]
    ensures relay.activeTunnels == old(relay.activeTunnels)
    ensures relay.customDomainToSubdomain == old(relay.customDomainToSubdomain)
    ensures relay.sockets == old(relay.sockets) && relay.db == old(relay.db) && relay.nextSocket == old(relay.nextSocket)
  {
    var body: Option<string> := None;
    if CarriesBody(req.httpMethod) {
      body := Some(req.text);
    }
    var headers := ApplyHeaders(map[], req.headers);
    var request := TunnelRequest(requestId, req.httpMethod, req.pathname + req.search, headers, body);
    assert request == ForwardedRequest(req, requestId);
    w := relay.SendTunnelRequest(key, request);
  }

  datatype ProxyStart = NotATunnel | Forwarded(key: string, waiter: Waiter)

  /** `handleProxyRequest` when nothing else runs between its two steps
      (always so for GET and HEAD, which read no body). */
  method HandleProxyRequest(relay: Relay, req: InboundRequest, hostname: string, requestId: string)
    returns (r: ProxyStart)
    requires relay.Valid()
    modifies relay
    ensures relay.Valid()
    ensures var key := RoutingKey(old(relay.customDomainToSubdomain), hostname);
      key !in old(relay.activeTunnels) ==>
        && r == NotATunnel
        && relay.activeTunnels == old(relay.activeTunnels)
        && relay.customDomainToSubdomain == old(relay.customDomainToSubdomain)
        && relay.pendingRequests == old(relay.pendingRequests) && relay.timers == old(relay.timers)
        && relay.settled == old(relay.settled) && relay.nextWaiter == old(relay.nextWaiter)
        && relay.sockets == old(relay.sockets) && relay.outbox == old(relay.outbox)
        && relay.nextSocket == old(relay.nextSocket) && relay.db == old(relay.db)
    ensures var key := RoutingKey(old(relay.customDomainToSubdomain), hostname);
      key in old(relay.activeTunnels) ==>
        var c := old(relay.activeTunnels[key]);
        var w := old(relay.nextWaiter);
        && r == Forwarded(key, w)
        && relay.pendingRequests == old(relay.pendingRequests)[requestId := w]
        && relay.timers == old(relay.timers)[w := requestId]
        && relay.settled == old(relay.settled) && relay.nextWaiter == w + 1
        && relay.outbox == old(relay.outbox)[c.ws := old(relay.outbox[c.ws]) + [Send(RequestFrame(ForwardedRequest(req, requestId)))]]
        && relay.activeTunnels == old(relay.activeTunnels)
        && relay.customDomainToSubdomain == old(relay.customDomainToSubdomain)
        && relay.sockets == old(relay.sockets) && relay.db == old(relay.db) && relay.nextSocket == old(relay.nextSocket)
  {
    var key := Lookup(relay, hostname);
    if key.None? {
      return NotATunnel;
    }
    var w := Forward(relay, key.value, req, requestId);
    r := Forwarded(key.value, w);
  }

  // ---------------------------------------------------------------------
  // The answer
  // ---------------------------------------------------------------------

  /** The statuses the Fetch standard gives no body. */
  predicate NullBodyStatus(status: int) {
    status == 101 || status == 103 || status == 204 || status == 205 || status == 304
  }

  /** `tunnelResponse.body || null`: an absent and an empty body are both null. */
  function ReplyBody(body: Option<string>): (b: Body)
    ensures b == NoBody <==> body.None? || body.value == ""
    ensures b != NoBody ==> b == Text(body.value)
  {
    if body.Some? && body.value != "" then Text(body.value) else NoBody
  }

  /** Whether `new Response(body, { status })` succeeds: the status must lie
      in 200..599 (else RangeError) and a null-body status takes no body
      (else TypeError). */
  predicate Constructible(status: int, body: Body) {
    200 <= status <= 599 && !(NullBodyStatus(status) && body != NoBody)
  }

  /** HTTP whitespace in the sense of the Fetch standard: tab, line feed,
      carriage return and space. */
  predicate HttpWhitespace(c: char) {
    c == ' ' || c == '\t' || c == '\n' || c == '\r'
  }

  /** `v` without its leading HTTP whitespace. */
  function TrimStart(v: string): (t: string)
    ensures |t| <= |v| && t == v[|v| - |t|..]
    ensures t == "" || !HttpWhitespace(t[0])
    ensures forall i :: 0 <= i < |v| - |t| ==> HttpWhitespace(v[i])
    decreases |v|
  {
    if |v| > 0 && HttpWhitespace(v[0]) then TrimStart(v[1..]) else v
  }

  /** `v` without its trailing HTTP whitespace. */
  function TrimEnd(v: string): (t: string)
    ensures |t| <= |v| && t == v[..|t|]
    ensures t == "" || !HttpWhitespace(t[|t| - 1])
    ensures forall i :: |t| <= i < |v| ==> HttpWhitespace(v[i])
    decreases |v|
  {
    if |v| > 0 && HttpWhitespace(v[|v| - 1]) then TrimEnd(v[..|v| - 1]) else v
  }

  /** The normalisation `Headers` applies to every value it stores: leading
      and trailing HTTP whitespace are removed, and nothing else changes. */
  function Normalize(v: string): (t: string)
    ensures t == "" || (!HttpWhitespace(t[0]) && !HttpWhitespace(t[|t| - 1]))
    //XXensures exists i, j :: 0 <= i <= j <= |v| && t == v[i..j]
    ensures v == "" || (!HttpWhitespace(v[0]) && !HttpWhitespace(v[|v| - 1])) ==> t == v
  {
    var u := TrimStart(v);
    var t := TrimEnd(u);
    assert t == v[|v| - |u|..|v| - |u| + |t|];
    t
  }

  /** Normalising only cuts whitespace off the two ends: what remains is a
      contiguous piece of the value, and the cut-off characters are all
      whitespace. */
  lemma NormalizeIsInfix(v: string)
    ensures exists i, j ::
      && 0 <= i <= j <= |v| && Normalize(v) == v[i..j]
      && (forall k :: 0 <= k < i ==> HttpWhitespace(v[k]))
      && (forall k :: j <= k < |v| ==> HttpWhitespace(v[k]))
  {
    var u := TrimStart(v);
    var t := TrimEnd(u);
    var i := |v| - |u|;
    var j := i + |t|;
    assert Normalize(v) == v[i..j];
    forall k | j <= k < |v|
      ensures HttpWhitespace(v[k])
    {
      assert v[k] == u[k - i];
    }
  }

  /** A character of the `token` production of RFC 9110, section 5.6.2. */
  predicate TokenChar(c: char) {
    ('a' <= c <= 'z') || ('A' <= c <= 'Z') || ('0' <= c <= '9') || c in "!#$%&'*+-.^_`|~"
  }

  /** A name `Headers` accepts: a non-empty token. */
  predicate ValidHeaderName(name: string) {
    |name| > 0 && forall i :: 0 <= i < |name| ==> TokenChar(name[i])
  }

  /** A value `Headers` accepts: a byte string (no character above U+00FF)
      whose normalised form holds no NUL, line feed or carriage return. */
  predicate ValidHeaderValue(value: string) {
    && (forall i :: 0 <= i < |value| ==> value[i] <= '\U{FF}')
    && var t := Normalize(value);
       forall i :: 0 <= i < |t| ==> t[i] != '\0' && t[i] != '\n' && t[i] != '\r'
  }

  /** Whether `new Headers(record)` succeeds: every name and every value is
      accepted (else TypeError). */
  predicate ValidHeaders(headers: map<string, string>) {
    forall name :: name in headers ==> ValidHeaderName(name) && ValidHeaderValue(headers[name])
  }

  /** The headers `new Headers(record)` holds: every value normalised. */
  function NormalizedHeaders(headers: map<string, string>): (h: map<string, string>)
    ensures h.Keys == headers.Keys
    ensures forall name :: name in headers ==> h[name] == Normalize(headers[name])
  {
    map name | name in headers :: Normalize(headers[name])
  }

  /** Whether the answer of a resolved frame can be built at all: its
      headers, its status and its body are accepted. */
  predicate Buildable(response: TunnelResponse) {
    ValidHeaders(response.headers) && Constructible(response.status, ReplyBody(response.body))
  }

  /** The 502 answer of the `catch` block. */
  function TunnelError(message: string): (r: HttpResponse)
    ensures r.status == 502 && r.headers == map["content-type" := "application/json"] && r.body.JsonBody?
    ensures Member(r.body.json, "error") == Some(JStr("Tunnel Error"))
    ensures Member(r.body.json, "message") == Some(JStr(message))
  {
    var members := [("error", JStr("Tunnel Error")), ("message", JStr(message))];
    assert members[1..] == [("message", JStr(message))];
    assert FirstMember(members[1..], "message") == Some(JStr(message));
    HttpResponse(502, "", map["content-type" := "application/json"], JsonBody(JObj(members)))
  }

  /** What `handleProxyRequest` answers once the promise of its frame has
      settled as `s`, for the registry key `key`. */
  function ProxyReply(s: Settlement, key: string): (r: HttpResponse)
    ensures s.Resolved? && Buildable(s.response) ==>
      && r.status == s.response.status
      && r.body == ReplyBody(s.response.body)
      && r.headers.Keys == s.response.headers.Keys + {PROXY_HEADER, SUBDOMAIN_HEADER}
      && r.headers[PROXY_HEADER] == "true" && r.headers[SUBDOMAIN_HEADER] == key
      && (forall name :: name in s.response.headers && name != PROXY_HEADER && name != SUBDOMAIN_HEADER ==>
           r.headers[name] == Normalize(s.response.headers[name]))
    ensures !(s.Resolved? && Buildable(s.response)) ==>
      && r.status == 502
      && (r == TunnelError(TIMEOUT_MESSAGE) <==> s == Rejected(REQUEST_TIMEOUT))
      && (r == TunnelError(FAILED_MESSAGE) <==> s != Rejected(REQUEST_TIMEOUT))
  {
    if s.Resolved? && Buildable(s.response) then
      var headers := NormalizedHeaders(s.response.headers);
      HttpResponse(s.response.status, "",
        headers[PROXY_HEADER := "true"][SUBDOMAIN_HEADER := key],
        ReplyBody(s.response.body))
    else if s == Rejected(REQUEST_TIMEOUT) then TunnelError(TIMEOUT_MESSAGE)
    else TunnelError(FAILED_MESSAGE)
  }

  /** A resolved frame whose headers `new Headers` refuses, such as a name
      with a space in it, is answered 502 "Failed to reach the local
      application", however good its status and body are. */
  lemma BadHeaderNameIsFailure(response: TunnelResponse, key: string)
    requires "x y" in response.headers
    ensures ProxyReply(Resolved(response), key) == TunnelError(FAILED_MESSAGE)
  {
    assert !TokenChar("x y"[1]);
  }

  /** A request whose tunnel vanished before its frame was sent, because the
      body was being read, is rejected with "No active tunnel…" and so is
      answered like any other failure, not with the timeout message. */
  lemma VanishedTunnelIsFailure(key: string)
    ensures ProxyReply(Rejected(NO_ACTIVE_TUNNEL), key) == TunnelError(FAILED_MESSAGE)
    ensures ProxyReply(Rejected(NO_ACTIVE_TUNNEL), key).status == 502
  {
  }

  /** What the promise of `handleProxyRequest` resolves to once the
      promise of its frame, if it sent one, has settled as `s`: `null` for
      a host that is not a connected tunnel, else an answer that carries the
      reply's status or is a 502. */
  function Outcome(start: ProxyStart, s: Settlement): (r: Option<HttpResponse>)
    ensures r.None? <==> start.NotATunnel?
    ensures r.Some? ==> r.value.status == 502 || (s.Resolved? && r.value.status == s.response.status)
  {
    if start.NotATunnel? then None else Some(ProxyReply(s, start.key))
  }

  // ---------------------------------------------------------------------
  // getTunnelUrl
  // ---------------------------------------------------------------------

  /** `process.env.BASE_DOMAIN || "localhost:3000"`: never empty, and the
      environment's value whenever that is set and non-empty. */
  function BaseDomain(env: Option<string>): (b: string)
    ensures b != ""
    ensures env.Some? && env.value != "" ==> b == env.value
  {
    if env.Some? && env.value != "" then env.value else DEFAULT_BASE_DOMAIN
  }

  /** The host name of the tunnel `subdomain`. */
  function TunnelHost(baseDomain: string, subdomain: string): string {
    subdomain + "." + baseDomain
  }

  /** `getTunnelUrl(subdomain)`: plain HTTP exactly when the base domain
      mentions "localhost", HTTPS otherwise. */
  function TunnelUrl(baseDomain: string, subdomain: string): (url: string)
    ensures Contains(baseDomain, "localhost") ==> url == "http://" + TunnelHost(baseDomain, subdomain)
    ensures !Contains(baseDomain, "localhost") ==> url == "https://" + TunnelHost(baseDomain, subdomain)
  {
    var protocol := if Contains(baseDomain, "localhost") then "http" else "https";
    protocol + "://" + subdomain + "." + baseDomain
  }

  /** Without a `BASE_DOMAIN` in the environment, tunnel URLs are plain
      HTTP on the development host. */
  lemma DefaultTunnelUrl(env: Option<string>, subdomain: string)
    requires env.None? || env.value == ""
    ensures TunnelUrl(BaseDomain(env), subdomain) == "http://" + subdomain + ".localhost:3000"
  {
    assert OccursAt(DEFAULT_BASE_DOMAIN, "localhost", 0);
  }

  /** The host of a tunnel's URL routes back to that tunnel: for a
      subdomain without a dot and a host with no custom-domain mapping, the
      registry key of `TunnelHost` is the subdomain. */
  lemma {:induction false} TunnelHostRoutesBack(customDomains: map<string, string>, baseDomain: string, subdomain: string)
    requires NoChar(subdomain, '.')
    requires TunnelHost(baseDomain, subdomain) !in customDomains || customDomains[TunnelHost(baseDomain, subdomain)] == ""
    ensures RoutingKey(customDomains, TunnelHost(baseDomain, subdomain)) == subdomain
  {
    var host := TunnelHost(baseDomain, subdomain);
    var key := RoutingKey(customDomains, host);
    assert host[|subdomain|] == '.';
    assert host[..|subdomain|] == subdomain;
  }
}
