# Tunnel relay: a Dafny model

This project models the server side of a self-hosted HTTP tunnel service.

A developer's machine opens a WebSocket control connection to `/_tunnel/connect`. It authenticates with an API token (`tnl_…`) and claims a subdomain, and optionally a custom host name. From then on, public HTTP requests for `<subdomain>.<base domain>`, or for the custom host, are relayed as `request` frames down that socket. The relay waits up to 30 seconds for the matching `response` frame and answers the public caller with it.

Around the relay sit the HTTP front door and a small management API:
- CORS handling, the route table and the JWT-protected routes;
- tunnel listing, statistics and forced disconnect;
- API tokens: listing, creation and revocation;
- custom domains: format check, registration, deletion and verification;
- account registration, login and the current user.

## Modules

| file | module | models |
|---|---|---|
| `util.dfy` | `Util` | String helpers. `split(".")`, the first dot-label, `String(n)`/`parseInt`, `substring`, and the text order SQLite sorts by. |
| `http.dfy` | `Http` | Responses, JSON bodies, request-body fields. `Headers.set` as a map update, with the `forEach` copy loop (`ApplyHeaders`). |
| `db.dfy` | `Db` | The four tables as sequences of rows, with the id counters and the UNIQUE and foreign-key constraints (`Wf`). The fallible tunnel-record insert. |
| `server.dfy` | `TunnelServer` | `src/tunnel/server.ts` as class `Relay`. It holds `activeTunnels`, `customDomainToSubdomain`, `pendingRequests`, each socket's `ws.data`, a per-socket outbox of sends and closes, the armed timers, and the settlement of every `sendTunnelRequest` promise. |
| `proxy.dfy` | `Proxy` | `src/tunnel/proxy.ts`: routing key, forwarded frame, answer mapping, `getTunnelUrl`. |
| `routes.dfy` | `Routes` | `src/index.ts`: `corsHeaders`/`withCors`, the `fetch` dispatch, the upgrade branch, the proxy fallback, `authMiddleware` and `protectedRoute`. |
| `tunnels_api.dfy` | `TunnelsApi` | `src/api/tunnels.ts`. |
| `tokens_api.dfy` | `TokensApi` | `src/api/tokens.ts`. |
| `domains_api.dfy` | `DomainsApi` | `src/api/domains.ts`. |
| `auth_routes.dfy` | `AuthRoutes` | `src/auth/routes.ts`. |

### How the model stands in for the runtime

**Sockets and sends.** Sockets are numbers. `ws.send(frame)` and `ws.close(code, reason)` append a `SocketOp` to that socket's outbox, so every property about what a socket was sent is a statement about an outbox.

**Promises and timers.**
- The promise returned by `sendTunnelRequest` is a waiter number.
- It is settled at most once, in `Relay.settled`; the predicate `Extends` states that settlements are never revised.
- The 30 s timer is an entry of `Relay.timers`.
- Its expiry is the event `Relay.FireTimeout`, and `clearTimeout` removes the entry.

**Oracles.** Randomness (`nanoid`), the clock, password hashing and JWT signing or verification are parameters:
- `requestId`, `id` and `now` are given as values;
- `passwordHash` is the hash value;
- `verifyPassword`, `sign` and `verify` are functions.

**Request bodies.** `req.json()` followed by destructuring is a `RequestBody`. It is `Unparsable` when the parse throws or the document is `null`, whose destructuring throws; both take the 500 path. Any other document gives its string fields: a number, a string or an array has none, so its fields read as missing and take the 400 path.

**Behaviours kept as the code has them:**
- Message handling never consults `ws.data.authenticated`, so a socket can authenticate twice (`TunnelServer.SecondAuthOrphansFirst`).
- Closing a socket leaves its in-flight requests to their timers; they are not failed at once (`TunnelServer.Relay.HandleTunnelClose`).
- A host that is not a connected tunnel falls back to the frontend, not to a tunnel-unreachable error (`Routes.UnknownTunnelHostGetsFrontend`). Answering with a relay error instead would be a different design; the model follows the code.
- The tunnel-record insert fails silently when the subdomain was ever recorded before, because `tunnels.subdomain` is UNIQUE. `DecideAuth` then yields `RecordFailed`, and nothing is sent.

## Model

| member | source | states |
|---|---|---|
| `TunnelServer.OrNull` | src/tunnel/server.ts:132 | `customDomain \|\| null`: present exactly when the custom domain is given and non-empty, and then unchanged. |
| `TunnelServer.AuthenticateToken` | src/tunnel/server.ts:56-77 | Finds a token row iff one has that text and no `revokedAt`. The row found does. Its `lastUsedAt` is set to `now`; no other row, table or id counter changes. With no match, the store is untouched. Store well-formedness is kept. |
| `TunnelServer.DecideAuth` | src/tunnel/server.ts:91-124 | The order of the checks, each as an iff: invalid token, then subdomain already in `activeTunnels`, then insert failure iff the subdomain is already recorded. On success the new row belongs to the token's user and token, is `connected`, carries the next tunnel id and is appended to `tunnels`, and the token table is the one `authenticateToken` left. |
| `TunnelServer.Relay.constructor` | src/tunnel/server.ts:43-53 | The registry, the custom-domain index and the correlator start empty. |
| `TunnelServer.Relay.Accept` | src/index.ts:82-93 | A fresh socket is accepted with the given `ws.data` and an empty outbox; nothing else changes. |
| `TunnelServer.Relay.Emit` | src/tunnel/server.ts:96-97 | `ws.send`/`ws.close` append to that socket's outbox and to nothing else. |
| `TunnelServer.Relay.HandleAuth` | src/tunnel/server.ts:91-159 | Refusals leave the registry, the index and `ws.data` unchanged. Invalid token sends `error "Invalid token"` then closes 1008. Subdomain in use sends `error "Subdomain already in use"` then closes 1008, keeping the existing connection. An insert failure sends nothing. Success sets `ws.data` with `authenticated = true`, installs `activeTunnels[subdomain]`, sets `customDomainToSubdomain[customDomain]` iff the custom domain is non-empty, and sends exactly one `authenticated` frame. The correlator is untouched. |
| `TunnelServer.Relay.Install` | src/tunnel/server.ts:126-156 | The success half of `auth`: `ws.data`, the registry entry, the conditional custom-domain entry and the single `authenticated` frame. |
| `TunnelServer.Relay.HandleResponse` | src/tunnel/server.ts:163-171 | A pending id is resolved once: it was unsettled, its timer is cleared and the entry is deleted. An id that is not pending (unknown, late or repeated) changes nothing. Earlier settlements are never revised. |
| `TunnelServer.Relay.HandleTunnelMessage` | src/tunnel/server.ts:80-181 | Dispatch on `type`: `auth` acts as `HandleAuth` and `response` as `HandleResponse`. `ping` appends one `pong` and changes no state. An unknown type or malformed JSON changes nothing. Only `auth` touches the registry, `ws.data` or the store. No branch depends on `authenticated`. |
| `TunnelServer.Relay.HandleTunnelClose` | src/tunnel/server.ts:184-206 | If `authenticated` and the subdomain is non-empty: removes `activeTunnels[subdomain]`, removes `customDomainToSubdomain[customDomain]` when one is set, and marks the row disconnected when `tunnelId` is non-zero. Otherwise it is a no-op. It never touches the correlator, timers or settlements, and sends nothing. |
| `TunnelServer.Relay.SendTunnelRequest` | src/tunnel/server.ts:209-234 | With no connection: rejected with "No active tunnel for this subdomain", with no pending entry, no timer and no frame. Otherwise: the pending entry and its timer are added, and exactly one `request` frame goes to that connection's socket. |
| `TunnelServer.Relay.Drop` | src/api/tunnels.ts:48-52 | The connection's socket gets `close(code, reason)` and the subdomain leaves `activeTunnels`. `customDomainToSubdomain` and everything else are unchanged. |
| `TunnelServer.FreshAuthRegisters` | src/tunnel/server.ts:91-156 | An accepted token with a subdomain that is neither active nor ever recorded registers. The token stays accepted, and no other subdomain becomes recorded. |
| `TunnelServer.FreshAuth` | src/tunnel/server.ts:91-156 | Such an `auth` on a socket adds exactly its subdomain to the registry, pointing at that socket, keeps every other entry, makes `ws.data` name that subdomain and sends one `authenticated` frame. |
| `TunnelServer.SecondAuthOrphansFirst` | src/tunnel/server.ts:91-206 | Two successful `auth` messages on one socket, for `a` then `b`, both succeed, since nothing checks `authenticated`. `ws.data` then names only `b`. Closing the socket removes `b`, while `a` stays registered to the closed socket. |
| `TunnelServer.Relay.FireTimeout` | src/tunnel/server.ts:220-223 | An armed timer rejects its still-unsettled waiter with "Tunnel request timeout" and deletes its id from the correlator. A cleared timer does nothing. |
| `Proxy.RoutingKey` | src/tunnel/proxy.ts:11-21 | The custom-domain entry for the host when it is non-empty, else the host's text before the first `.`. |
| `Proxy.TunnelHostRoutesBack` | src/tunnel/proxy.ts:12-18 | For a dot-free subdomain with no custom mapping for its host, the host `sub.BASE_DOMAIN` routes back to `sub`. |
| `Proxy.ForwardedRequest` | src/tunnel/proxy.ts:26-49 | The frame carries the given id and the method verbatim, with `url = pathname + search`. It has a body iff the method is neither GET nor HEAD, and then the body is the request text. Its header names are exactly the inbound ones, and each holds the last value `forEach` gave it. |
| `Proxy.Lookup` | src/tunnel/proxy.ts:20-24 | A key iff the routing key has an entry in `activeTunnels`, and then it is the routing key. |
| `Proxy.Forward` | src/tunnel/proxy.ts:27-49 | Copies the headers with the `forEach` loop and sends exactly `ForwardedRequest(req, id)` through `sendTunnelRequest`. Otherwise as `SendTunnelRequest`. |
| `Proxy.HandleProxyRequest` | src/tunnel/proxy.ts:7-49 | Unknown key: `null`, with no frame, no pending entry and no state change. Known key: exactly one `request` frame to that tunnel's socket, and one pending entry with its timer. |
| `Proxy.ReplyBody` | src/tunnel/proxy.ts:56 | `body \|\| null`: an absent or empty body becomes null, any other is kept. |
| `Proxy.TunnelError` | src/tunnel/proxy.ts:62-74 | 502 with `Content-Type: application/json` and a body with `error: "Tunnel Error"` and the given `message`. |
| `Proxy.ProxyReply` | src/tunnel/proxy.ts:51-75 | The success answer needs a resolved frame whose headers `new Headers` accepts (`ValidHeaders`) and whose status and body `new Response` accepts. It has the reply's status and body (after `\|\| null`) and the reply's header names, each value normalised. `X-Tunnel-Proxy: true` and `X-Tunnel-Subdomain: <key>` are added or overwritten, and the other headers are kept. Every failure is 502 `TunnelError`. Its message is the timeout text iff the rejection is exactly "Tunnel request timeout", and otherwise "Failed to reach the local application". A reply either constructor refuses is a failure. |
| `Proxy.TrimStart` | src/tunnel/proxy.ts:52 | The result is a suffix of the value that does not start with HTTP whitespace, and everything cut off is HTTP whitespace. |
| `Proxy.TrimEnd` | src/tunnel/proxy.ts:52 | The result is a prefix of the value that does not end with HTTP whitespace, and everything cut off is HTTP whitespace. |
| `Proxy.Normalize` | src/tunnel/proxy.ts:52 | A normalised header value neither starts nor ends with HTTP whitespace, is no longer than the value, and a value without outer whitespace is kept as it is. |
| `Proxy.NormalizeIsInfix` | src/tunnel/proxy.ts:52 | A normalised value is a contiguous piece of the value, and only HTTP whitespace is cut off on either side. |
| `Proxy.NormalizedHeaders` | src/tunnel/proxy.ts:52 | `new Headers(record)` holds the same names, each with its value normalised. |
| `Proxy.BadHeaderNameIsFailure` | src/tunnel/proxy.ts:52 | A resolved frame with a header name that is not a token (`x y`) is answered 502 "Failed to reach the local application". |
| `Proxy.VanishedTunnelIsFailure` | src/tunnel/server.ts:214-217 | A tunnel that vanished before the send gets the "Failed to reach" 502, not the timeout message. |
| `Proxy.Outcome` | src/tunnel/proxy.ts:21-75 | The proxy's promise resolves to `null` iff the host is not a connected tunnel. Otherwise the answer has the reply's status or is a 502. |
| `Proxy.BaseDomain` | src/tunnel/proxy.ts:4 | The base domain is never empty. It is the environment's value whenever that is set and non-empty. |
| `Proxy.DefaultTunnelUrl` | src/tunnel/proxy.ts:4-82 | With `BASE_DOMAIN` unset or empty, the URL of tunnel `s` is `http://s.localhost:3000`. |
| `Proxy.TunnelUrl` | src/tunnel/proxy.ts:79-82 | `http://sub.BASE` iff the base domain contains "localhost", else `https://sub.BASE`. |
| `Http.ApplyHeaders` | src/index.ts:34-37 | The `forEach`/`set` loop computes `SetAll`, the fold in which each later entry for a name wins. |
| `Http.SetAllKeys` | src/index.ts:34-37 | After the sets, the header names are the old names plus those of the entries. |
| `Http.SetAllKeeps` | src/index.ts:34 | A header no entry names keeps its presence and its value. |
| `Http.SetAllLastWins` | src/tunnel/proxy.ts:38-40 | An entry not followed by another of the same name determines that header's value. |
| `Routes.WithCors` | src/index.ts:33-43 | `withCors` equals `Cors`: only the headers change, by the three CORS sets. |
| `Routes.CorsSetsExactlyThree` | src/index.ts:21-43 | Status, status text and body are kept. The header names are the old ones plus the three CORS names, with the three CORS values, and every other header keeps its value. |
| `Routes.CorsResponse` | src/index.ts:29-31 | 204, no body, exactly the three CORS headers. |
| `Routes.Dispatch` | src/index.ts:70-166 | OPTIONS on any path or host is a preflight, before anything else. Otherwise the exact path `/_tunnel/connect` upgrades on any host. Otherwise the proxy branch is taken iff `ProxyBranch`. Each exact API path with its method reaches its handler: POST register and login, GET me, GET and POST tokens, GET tunnels, GET stats, GET and POST domains. The proxied host and the frontend path are the request's own. |
| `Routes.UnmatchedApiRequestIsFrontend` | src/index.ts:115-166 | A non-OPTIONS request under `/api/` is served the frontend iff its method and path match none of the API routes (`ApiRoute`). |
| `Routes.UnmatchedApiExamples` | src/index.ts:115-166 | GET `/api/auth/register`, POST `/api/nope` and DELETE `/api/tokens/abc` all fall through to the frontend. |
| `Routes.ProxyBranchNeedsDot` | src/index.ts:101-108 | The proxy branch is taken iff all of these hold: the first label is non-empty; it is not `localhost`; the host contains a dot; the path starts with neither `/api/` nor `/_tunnel/`. |
| `Routes.MatchId` | src/index.ts:132-163 | A match means the path is prefix, digits, suffix, and yields the digits' value. |
| `Routes.MatchIdComplete` | src/index.ts:132-163 | Every prefix, digits, suffix path matches with the digits' value. |
| `Routes.RevokeTokenRoute` | src/index.ts:132-135 | `DELETE /api/tokens/<n>` dispatches to revoke with `n`. |
| `Routes.DisconnectTunnelRoute` | src/index.ts:144-147 | `DELETE /api/tunnels/<n>` dispatches to disconnect with `n`. |
| `Routes.DeleteDomainRoute` | src/index.ts:156-159 | `DELETE /api/domains/<n>` dispatches to delete with `n`. |
| `Routes.VerifyDomainRoute` | src/index.ts:160-163 | `POST /api/domains/<n>/verify` dispatches to verify with `n`. |
| `Routes.TokenIdRouteNeedsDelete` | src/index.ts:132-166 | `/api/tokens/<n>` with any method except DELETE (and OPTIONS) reaches no handler and falls through to the frontend. |
| `Routes.TunnelIdRouteNeedsDelete` | src/index.ts:144-166 | `/api/tunnels/<n>` with any method except DELETE (and OPTIONS) falls through to the frontend. |
| `Routes.DomainIdRouteNeedsDelete` | src/index.ts:156-166 | `/api/domains/<n>` with any method except DELETE (and OPTIONS) falls through to the frontend. |
| `Routes.VerifyRouteNeedsPost` | src/index.ts:160-166 | `/api/domains/<n>/verify` with any method except POST (and OPTIONS) falls through to the frontend. |
| `Routes.NonApiPathIsFrontend` | src/index.ts:99-166 | A non-proxied request outside `/api/` (and not the connect path) is served the frontend. |
| `Routes.NoMatchOutsideApi` | src/index.ts:132-163 | No id route matches a path outside `/api/`. |
| `Routes.ApiPathNotProxied` | src/index.ts:106 | A path under `/api/` is never proxied, whatever the host. |
| `Routes.Connect` | src/index.ts:82-96 | If the upgrade succeeds, a socket is accepted with `authenticated = false`, an empty subdomain and zero ids. Otherwise the answer is the CORS-wrapped 400 "WebSocket upgrade failed". The registry, correlator and store are unchanged either way. |
| `Routes.ProxyOrFrontend` | src/index.ts:109-111 | `res \|\| serveFrontend(path)`: the frontend iff the proxy gave `null`, and otherwise the proxy's answer. |
| `Routes.UnknownTunnelHostGetsFrontend` | src/index.ts:101-111 | The proxy branch answers with the frontend iff `handleProxyRequest` found no connected tunnel (`NotATunnel`). A forwarded request is always answered with the proxy's reply or its 502, never the frontend. |
| `Routes.AuthMiddleware` | src/auth/middleware.ts:37-56 | A missing header or one without `Bearer ` gives 401 "Missing or invalid Authorization header". A token the verifier refuses gives 401 "Invalid or expired token". Otherwise the payload of the token after `Bearer `. |
| `Routes.ProtectedRoute` | src/index.ts:48-64 | An auth failure is returned CORS-wrapped and the handler is not called. A verified payload always calls the handler, with `parseInt(sub)` for a digit subject. |
| `Routes.IssuedSubjectReachesHandler` | src/index.ts:52 | A subject written as `String(id)` reaches the handler as `id`. |
| `Util.ParseInt` | src/index.ts:52 | `parseInt` of a digit string is its decimal value, `-` before digits negates it, and an empty string or one starting with neither a digit nor a sign is NaN (`None`). |
| `Util.DigitsRoundTrip` | src/index.ts:52 | Parsing `String(n)` gives back `n`. |
| `Util.JoinSplit` | src/index.ts:101 | Joining the `split(".")` pieces restores the string. |
| `Util.FirstLabelIsWholeIffNoDot` | src/index.ts:105 | `split(".")[0] === hostname` iff the host has no dot. |
| `Util.Substring` | src/api/tokens.ts:28 | `substring` clamps a negative start to 0 and an end past the string to its length, swaps the bounds when start > end, and within bounds it is the slice. |
| `Util.TextLeTotal` | src/api/tunnels.ts:25 | The text order used by `ORDER BY` is total. |
| `Util.TextLeTrans` | src/api/tunnels.ts:25 | The text order is transitive. |
| `Db.InsertTunnel` | src/tunnel/server.ts:113-124 | The insert fails iff a row with that subdomain exists (UNIQUE). Otherwise it appends one `connected` row with the next id. |
| `Db.DisconnectTunnelsWhere` | src/api/tunnels.ts:54-60 | Exactly the selected rows become `disconnected` with `disconnectedAt = now`. The other rows and tables are unchanged. Well-formedness is kept. |
| `Db.DisconnectKeepsSubdomains` | src/tunnel/server.ts:184-206 | Marking rows disconnected does not free their subdomains for a later insert. |
| `TunnelsApi.TokenName` | src/api/tunnels.ts:20-23 | The left join: a name iff a token row has the tunnel's `tokenId`, and then that row's name. |
| `TunnelsApi.SortNewestFirst` | src/api/tunnels.ts:25 | The result is ordered by `connectedAt` descending and is a permutation of the input. |
| `TunnelsApi.ListTunnels` | src/api/tunnels.ts:11-28 | The list is newest first and, as a multiset, equals the listings of exactly the user's rows. |
| `TunnelsApi.ListTunnelsIsTheUsersRows` | src/api/tunnels.ts:24 | Every listed tunnel is one of the user's rows, and every row of the user is listed. |
| `TunnelsApi.OwnedTunnel` | src/api/tunnels.ts:37-41 | A row iff one has that id and that user. |
| `TunnelsApi.HandleDisconnectTunnel` | src/api/tunnels.ts:32-63 | An unowned id gives 404 "Tunnel not found" and nothing changes. For an owned row whose subdomain is active, the socket gets `close(1000, "Disconnected by user")` and the registry entry goes. The row is marked disconnected whether or not it was active. `customDomainToSubdomain`, the correlator and `ws.data` are untouched. |
| `TunnelsApi.DisconnectMarksRow` | src/api/tunnels.ts:54-60 | After a disconnect the owned row is `disconnected` with `disconnectedAt = now`. |
| `Db.FilterCount` | src/api/tunnels.ts:76-94 | The length of a `select … where p` equals the number of rows satisfying `p`, counted row by row. |
| `TunnelsApi.GetStats` | src/api/tunnels.ts:66-97 | Each counter is a row count over the whole table: `totalTunnels` counts the user's tunnel rows, `activeTunnels` those of them with status `connected`, `totalTokens` the user's tokens, `activeTokens` those of them with no `revokedAt`. Hence active ≤ total for both. |
| `TunnelsApi.StatsAllActiveIffNoneDisconnected` | src/api/tunnels.ts:76-79 | The active-tunnel count equals the total iff every tunnel row of the user is `connected`. |
| `TunnelsApi.StatsResponse` | src/api/tunnels.ts:89-96 | A 200 JSON answer whose `stats` object holds exactly the four counts, in that order: connected rows, all rows, unrevoked tokens, all tokens of the user. |
| `TokensApi.TokenPreview` | src/api/tokens.ts:25-29 | The first 8 characters, then `...`, then the last 4, with the `substring` clamping for short tokens. |
| `TokensApi.PreviewOfIssuedToken` | src/api/tokens.ts:25-50 | An issued token's 15-character preview is `tnl_`, 4 characters of the random part, `...`, and its last 4. |
| `TokensApi.ListTokens` | src/api/tokens.ts:7-32 | One listing per token of the user, in table order. Each carries that row's id, name, full token, `lastUsedAt`, `createdAt` and `revokedAt`, and its preview. |
| `TokensApi.ListTokensOwnAndFull` | src/api/tokens.ts:21-26 | Only the user's tokens are listed, and each listing carries the full token. |
| `TokensApi.CreatedJsonCarriesToken` | src/api/tokens.ts:62-69 | The creation answer carries the full token. |
| `TokensApi.CreateToken` | src/api/tokens.ts:35-77 | Unparsable body: 500. Missing or empty name: 400 "Token name is required", with no insert. A duplicate token or a missing user: 500, with no insert. Otherwise it appends one row, `tnl_` plus the 48-character id, owned by the user, unrevoked, and answers with its id, name, token and `createdAt`. Well-formedness is kept. |
| `TokensApi.CreatedTokenAuthenticates` | src/api/tokens.ts:50-60 | A freshly created token passes `authenticateToken`. |
| `TokensApi.OwnedToken` | src/api/tokens.ts:85-89 | A row iff one has that id and that user. |
| `TokensApi.RevokeToken` | src/api/tokens.ts:80-110 | Unowned: 404 "Token not found", with nothing changed. Owned: exactly that token gets `revokedAt`. Exactly its `connected` tunnel rows become `disconnected`. The other tables and the id counters are unchanged. It answers "Token revoked successfully". Well-formedness is kept. |
| `TokensApi.RevokedTokenRejected` | src/api/tokens.ts:104-107 | After revocation the token fails `authenticateToken`. |
| `TokensApi.HandleRevokeToken` | src/api/tokens.ts:80-110 | Only the relay's store changes, as `RevokeToken` says. The registry and the open sockets are left alone. |
| `DomainsApi.ValidDomainShape` | src/api/domains.ts:37 | A valid domain contains a dot, neither starts nor ends with one, and its first label is non-empty and not the whole name. |
| `DomainsApi.TwoLabelDomain` | src/api/domains.ts:37 | A host label followed by `.` and a top label of 2 or more letters is valid. |
| `DomainsApi.ValidDomainAccepts` | src/api/domains.ts:37 | `ab.io` is valid. |
| `DomainsApi.ValidDomainRejectsLeadingHyphen` | src/api/domains.ts:37 | `-a.io` is invalid: a label may not start with a hyphen. |
| `DomainsApi.ValidDomainRejectsShortTop` | src/api/domains.ts:37 | `ab.c` is invalid: the last label needs 2 or more letters. |
| `DomainsApi.ListDomains` | src/api/domains.ts:7-18 | Exactly the user's domain rows. |
| `DomainsApi.AddDomain` | src/api/domains.ts:21-89 | Each refusal inserts nothing. The checks, in order: unparsable body gives 500; missing or empty domain gives 400 "Domain is required"; format failure gives 400 "Invalid domain format"; a domain present for any user gives 409 "Domain already registered"; a missing user gives 500. Otherwise one `pending`, unverified row is appended, with token `tunnel-verify-` plus the 32-character id. Any change implies a valid domain. Well-formedness is kept. |
| `DomainsApi.AddedRecordMatchesRow` | src/api/domains.ts:59-80 | The TXT instruction is named `_tunnel-verify.<domain>`, and its value is the stored verification token. |
| `DomainsApi.SecondRegistrationConflicts` | src/api/domains.ts:45-57 | Adding a domain that was just added, by any user, gives 409. |
| `DomainsApi.OwnedDomain` | src/api/domains.ts:97-101 | A row iff one has that id and that user. |
| `DomainsApi.DeleteDomain` | src/api/domains.ts:92-110 | Unowned: 404 "Domain not found", with nothing changed. Owned: exactly the rows with that id are removed, and the table gets shorter. It answers "Domain deleted". |
| `DomainsApi.VerifyDomain` | src/api/domains.ts:113-154 | Unowned: 404 "Domain not found", with nothing changed. Owned: the row gets `verified = true` and `sslStatus = "active"`, and the message depends only on whether the DNS call threw. |
| `DomainsApi.VerifyIgnoresDns` | src/api/domains.ts:128-153 | The try path and the catch path leave the same store, with the row verified and active. |
| `AuthRoutes.Session` | src/auth/routes.ts:53-66 | The token signed for subject `String(id)` with the email and name, and the user's id, email and name. |
| `AuthRoutes.UserByEmail` | src/auth/routes.ts:28-32 | A row iff one has that email, and then it does. |
| `AuthRoutes.Register` | src/auth/routes.ts:8-74 | Each refusal changes nothing. The checks, in order: unparsable body gives 500; a missing or empty email, password or name gives 400; a password shorter than 8 gives 400; an existing email gives 409. Otherwise one user row is appended with the next id, and the answer is that row's session. Well-formedness is kept. |
| `AuthRoutes.RegisterAddsAtMostOne` | src/auth/routes.ts:8-74 | A 200 adds exactly one user row. Any other answer leaves the store as it was. |
| `AuthRoutes.SecondRegistrationConflicts` | src/auth/routes.ts:28-39 | Registering an email that was just registered gives 409 and inserts nothing. |
| `AuthRoutes.Login` | src/auth/routes.ts:77-131 | Unparsable body: 500. A missing email or password: 400. An unknown email: 401 "Invalid credentials". A wrong password: the same 401. Otherwise the user's session. |
| `AuthRoutes.LoginFailuresAlike` | src/auth/routes.ts:95-108 | An unknown email and a wrong password get the identical 401 answer. |
| `AuthRoutes.RegisteredUserCanLogin` | src/auth/routes.ts:41-123 | After registering, logging in with the same email and a password the hash accepts yields the new row's session. |
| `AuthRoutes.Me` | src/auth/routes.ts:134-151 | 404 "User not found" iff no row has the id. Otherwise 200 with that user's id, email, name and `createdAt`. |
| `AuthRoutes.MeAfterRegister` | src/auth/routes.ts:43-151 | The id a registration assigns resolves to the profile just registered. |

## Left out

**Runtime and platform**
- I/O and the event loop are events and parameters, not a runtime. Timers are the `FireTimeout` event, and concurrency is any interleaving of relay method calls. `ws.send` and `ws.close` append to an outbox; the frames are not JSON-encoded.
- `nanoid`, `new Date().toISOString()`, argon2 hashing and verification, and JWT signing and verification (src/auth/hash.ts, src/auth/middleware.ts:16-34) are oracle parameters.
- `serveFrontend` (src/index.ts:183-225) is the opaque answer `ServeFrontend(path)`. The filesystem is not modelled.
- src/utils/ssl.ts, the frontend files, start-up and `console` logging are not part of this model.
- `Bun.dns.resolve` in domain verification is the flag `dnsThrows`, because its result is never used.
- URL parsing: a request is given as its pathname, search and `Host` header. `server.upgrade` is the boolean `upgraded`.

**JSON values and numbers**
- JSON bodies are objects of string fields. JavaScript truthiness of non-string values (a numeric `password` whose `.length` is undefined, say) is not modelled.
- A password's length is counted in Dafny characters, not UTF-16 code units.
- `parseInt` beyond safe-integer precision is not modelled.
- Routes.ProtectedRoute: for a JWT subject that is not a digit string it promises only that the handler is called, not the value `parseInt` gives it.

**Headers**
- Headers are a map with lower-case names. The case-folding and combining of repeated request headers by `Headers` are not modelled. Neither are the default `content-type` headers the runtime adds: `application/json` for `Response.json`, and `text/plain;charset=UTF-8` for `new Response(text)`. The latter affects the 400 of `Routes.Connect` (src/index.ts:94) and a proxied reply with a body but no `content-type` (src/tunnel/proxy.ts:56).
- Proxy.ProxyReply: the reply frame is taken as typed, with an integer status and string header values. `new Headers` lower-cases the frame's header names and joins the values of names that differ only in case; the model keeps the names as sent. Non-string values, which the runtime converts to strings, are not modelled.
- `Routes.Dispatch`: the responses of the API handlers are not put through `withCors` in the model. `Cors` states that wrapping.
- Proxied responses are not CORS-wrapped; the source does not wrap them either.

**Store**
- Storage failures other than the UNIQUE and foreign-key constraints are not modelled. Neither is the tie order of `ORDER BY connected_at DESC` between equal timestamps.
- `TunnelsApi.ListTunnels` is stated up to that order: newest first and a permutation of the user's rows.

**Relay behaviours kept as written**
- The custom domain in an `auth` message is not checked against the domains table. It can overwrite another tunnel's entry in `customDomainToSubdomain`, and a later close of either tunnel removes it.
- A second `auth` on an authenticated socket is not refused. With a subdomain never recorded it succeeds, and the socket then serves two subdomains while `ws.data` names only the second. Closing the socket removes the second entry only. The first stays in `activeTunnels`, pointing at a closed socket, until a forced disconnect drops it. `TunnelServer.SecondAuthOrphansFirst` exhibits this.
- Re-authenticating a subdomain that was ever recorded fails silently by `RecordFailed`, because `tunnels.subdomain` is UNIQUE and rows are never deleted.
- `TunnelServer.Relay.HandleResponse` resolves a pending id whichever socket the `response` came from, as the source does.
- `TunnelServer.Relay.HandleTunnelClose`: repeating a close removes the same registry entries again, so the registry is unaffected. It does stamp the row's `disconnectedAt` with the new time.
- AuthRoutes.Register: stated for a run with nothing interleaved across `await hashPassword` (src/auth/routes.ts:41). Two registrations of one email interleaved there both pass the existence check (src/auth/routes.ts:28-39). The second insert then fails on the UNIQUE email and is answered 500 "Internal server error" (src/auth/routes.ts:67-72), not 409.
- `Proxy.HandleProxyRequest` is stated for the case where nothing runs between the lookup and the send. Between them a body read may suspend the handler. `Proxy.Lookup` and `Proxy.Forward` are the two halves, and `Proxy.VanishedTunnelIsFailure` covers a tunnel that left in between.
- `TokensApi.ListTokensOwnAndFull`: the full token reaches the creation response and also every listing, because the whole row is spread beside its preview (src/api/tokens.ts:25-29). So "the full token appears only in the creation response" does not hold of this code. The model states what the code does.
