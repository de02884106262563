/** The relay engine of src/tunnel/server.ts: the registry of connected
    tunnels (`activeTunnels`, with `customDomainToSubdomain` as a secondary
    index by host name), the control-message handler that runs over each
    socket's `ws.data` record, and the correlator of forwarded requests
    (`pendingRequests`).

    Sockets are named by numbers; `ws.send` and `ws.close` append to that
    socket's outbox. Each promise made by `sendTunnelRequest` is a "waiter"
    number whose settlement is recorded once in `settled`; the 30 s timer of
    a waiter is an entry of `timers` naming the request id its callback
    deletes, and its expiry is the event `FireTimeout`. */
module TunnelServer {
  import opened Util
  import opened Db
  import opened Http

  type SocketId = nat
  type Waiter = nat

  /** `ws.data`, the per-socket record. */
  datatype TunnelData = TunnelData(
    userId: int, tokenId: int, subdomain: string, localPort: int, tunnelId: int,
    customDomain: Option<string>, authenticated: bool)

  /** A value of `activeTunnels`. */
  datatype Connection = Connection(
    ws: SocketId, userId: int, tokenId: int, subdomain: string, localPort: int, tunnelId: int,
    customDomain: Option<string>)

  datatype TunnelRequest = TunnelRequest(id: string, httpMethod: string, url: string, headers: Headers, body: Option<string>)

  datatype TunnelResponse = TunnelResponse(id: string, status: int, headers: Headers, body: Option<string>)

  /** The frames the relay sends down a control socket, by their `type`. */
  datatype ServerFrame =
    | ErrorFrame(message: string)
    | AuthenticatedFrame(subdomain: string, message: string)
    | RequestFrame(request: TunnelRequest)
    | PongFrame

  /** What the relay does to a socket: `ws.send(frame)` or `ws.close(code, reason)`. */
  datatype SocketOp = Send(frame: ServerFrame) | Close(code: int, reason: string)

  /** A control message after `JSON.parse`, told apart by its `type`;
      `Unparsable` is a message on which parsing (or reading `type`) threw. */
  datatype ClientMessage =
    | AuthMessage(token: string, subdomain: string, localPort: int, customDomain: Option<string>)
    | ResponseMessage(response: TunnelResponse)
    | PingMessage
    | OtherMessage(kind: string)
    | Unparsable

  /** How a `sendTunnelRequest` promise ended. */
  datatype Settlement = Resolved(response: TunnelResponse) | Rejected(reason: string)

  const NO_ACTIVE_TUNNEL := "No active tunnel for this subdomain"
  const REQUEST_TIMEOUT := "Tunnel request timeout"
  /** WebSocket close code "policy violation". */
  const POLICY_VIOLATION := 1008

  /** `customDomain || null`. */
  function OrNull(customDomain: Option<string>): (r: Option<string>)
    ensures r.Some? <==> customDomain.Some? && customDomain.value != ""
    ensures r.Some? ==> r == customDomain
  {
    if customDomain.Some? && customDomain.value != "" then customDomain else None
  }

  /** The `message` of the `authenticated` frame. */
  function ActiveMessage(subdomain: string, customDomain: Option<string>): string {
    "Tunnel active at " + subdomain + (if OrNull(customDomain).Some? then " and " + customDomain.value else "")
  }

  /** True when `p` is a token row that `authenticateToken` accepts for `token`. */
  predicate Accepts(t: AuthToken, token: string) {
    t.token == token && t.revokedAt.None?
  }

  /** `authenticateToken(token)`: the first token row with that text and no
      `revokedAt`, with its `lastUsedAt` set to `now`; the store is left
      alone when there is none. */
  function AuthenticateToken(db: Store, token: string, now: string): (r: (Option<AuthToken>, Store))
    ensures r.0.Some? <==> exists i :: 0 <= i < |db.authTokens| && Accepts(db.authTokens[i], token)
    ensures r.0.Some? ==> r.0.value in db.authTokens && Accepts(r.0.value, token)
    ensures r.0.None? ==> r.1 == db
    ensures r.1 == db.(authTokens := r.1.authTokens)
    ensures |r.1.authTokens| == |db.authTokens|
    ensures r.0.Some? ==> forall i :: 0 <= i < |db.authTokens| ==>
      r.1.authTokens[i] == (if db.authTokens[i].id == r.0.value.id then db.authTokens[i].(lastUsedAt := Some(now))
                            else db.authTokens[i])
    ensures Wf(db) ==> Wf(r.1)
  {
    var found := First(db.authTokens, (t: AuthToken) => Accepts(t, token));
    if found.None? then (None, db)
    else
      var f := (t: AuthToken) => t.(lastUsedAt := Some(now));
      var p := (t: AuthToken) => t.id == found.value.id;
      var db' := db.(authTokens := UpdateWhere(db.authTokens, p, f));
      assert Wf(db) ==> Wf(db') by {
        if Wf(db) {
          UpdateKeepsUnique(db.authTokens, p, f, (t: AuthToken) => t.id);
          UpdateKeepsUnique(db.authTokens, p, f, (t: AuthToken) => t.token);
          forall t | t in db'.authTokens ensures 1 <= t.id < db'.nextTokenId {
            var i :| 0 <= i < |db'.authTokens| && db'.authTokens[i] == t;
            assert db.authTokens[i] in db.authTokens;
          }
        }
      }
      (found, db')
  }

  /** Which way an `auth` message goes, and the store after it. */
  datatype AuthOutcome =
    | InvalidToken
    | SubdomainInUse(db: Store)
    | RecordFailed(db: Store)
    | Registered(db: Store, token: AuthToken, row: Tunnel)

  /** The decisions of the `auth` branch (src/tunnel/server.ts:91-124): the
      token check, then the registry check, then the tunnel-record insert.
      A token that matches refreshes its `lastUsedAt` even when a later
      step fails; nothing here looks at `ws.data.authenticated`. */
  function DecideAuth(db: Store, active: set<string>, token: string, subdomain: string, localPort: int, now: string)
    : (o: AuthOutcome)
    ensures o.InvalidToken? <==> forall i :: 0 <= i < |db.authTokens| ==> !Accepts(db.authTokens[i], token)
    ensures o.SubdomainInUse? <==> !o.InvalidToken? && subdomain in active
    ensures o.RecordFailed? <==> !o.InvalidToken? && subdomain !in active &&
                                 SubdomainRecorded(AuthenticateToken(db, token, now).1, subdomain)
    ensures (o.SubdomainInUse? || o.RecordFailed?) ==> o.db == AuthenticateToken(db, token, now).1
    ensures o.Registered? ==> o.db.authTokens == AuthenticateToken(db, token, now).1.authTokens
    ensures o.Registered? ==>
      && o.token in db.authTokens && Accepts(o.token, token)
      && o.row.subdomain == subdomain && o.row.userId == o.token.userId && o.row.tokenId == o.token.id
      && o.row.status == Connected && o.row.localPort == localPort && o.row.id == db.nextTunnelId
      && o.db.tunnels == db.tunnels + [o.row]
      && SubdomainRecorded(o.db, subdomain)
    ensures !o.InvalidToken? && Wf(db) ==> Wf(o.db)
  {
    var (found, db1) := AuthenticateToken(db, token, now);
    if found.None? then InvalidToken
    else if subdomain in active then SubdomainInUse(db1)
    else match InsertTunnel(db1, found.value.userId, found.value.id, subdomain, localPort, now)
      case None => RecordFailed(db1)
      case Some((db2, row)) =>
        assert db2.tunnels[|db2.tunnels| - 1].subdomain == subdomain;
        Registered(db2, found.value, row)
  }

  /** What a refused `auth` does to its socket: an `error` frame and a
      close with the policy-violation code, except when the tunnel-record
      insert threw, which sends nothing at all. */
  function RefusalOps(o: AuthOutcome): (ops: seq<SocketOp>)
    requires !o.Registered?
  {
    match o
    case InvalidToken => [Send(ErrorFrame("Invalid token")), Close(POLICY_VIOLATION, "Invalid token")]
    case SubdomainInUse(_) => [Send(ErrorFrame("Subdomain already in use")), Close(POLICY_VIOLATION, "Subdomain in use")]
    case RecordFailed(_) => []
  }

  /** Settlements are final: every promise settled before is still settled
      the same way. */
  ghost predicate Extends(before: map<Waiter, Settlement>, after: map<Waiter, Settlement>) {
    forall w :: w in before ==> w in after && after[w] == before[w]
  }

  class Relay {
    /** The registry: subdomain to connection. */
    var activeTunnels: map<string, Connection>
    /** Secondary index: custom host name to subdomain. */
    var customDomainToSubdomain: map<string, string>
    /** The correlator: request id to the waiter that its response resolves. */
    var pendingRequests: map<string, Waiter>
    /** Armed timers: waiter to the request id its callback deletes. */
    var timers: map<Waiter, string>
    /** The settlement of every promise that has ended. */
    var settled: map<Waiter, Settlement>
    var nextWaiter: Waiter
    /** `ws.data` of every socket the server has accepted. */
    var sockets: map<SocketId, TunnelData>
    /** Everything sent or done to each socket, in order. */
    var outbox: map<SocketId, seq<SocketOp>>
    var nextSocket: SocketId
    /** The database the relay records tunnels in. */
    var db: Store

    ghost predicate Valid()
      reads this
    {
      && outbox.Keys == sockets.Keys
      && (forall s :: s in sockets ==> s < nextSocket)
      && (forall k :: k in activeTunnels ==> activeTunnels[k].ws in sockets && activeTunnels[k].subdomain == k)
      && (forall id :: id in pendingRequests ==> pendingRequests[id] in timers && timers[pendingRequests[id]] == id)
      && (forall w :: w in timers ==> w < nextWaiter && w !in settled)
      && (forall w :: w in settled ==> w < nextWaiter)
      && Wf(db)
    }

    /** The process at start-up: empty registry and correlator. */
    constructor (db: Store)
      requires Wf(db)
      ensures Valid()
      ensures activeTunnels == map[] && customDomainToSubdomain == map[] && pendingRequests == map[]
      ensures timers == map[] && settled == map[] && sockets == map[] && this.db == db
    {
      activeTunnels, customDomainToSubdomain, pendingRequests := map[], map[], map[];
      timers, settled, nextWaiter := map[], map[], 0;
      sockets, outbox, nextSocket := map[], map[], 0;
      this.db := db;
    }

    /** A socket accepted by `server.upgrade(req, { data })`. */
    method Accept(data: TunnelData) returns (ws: SocketId)
      requires Valid()
      modifies this
      ensures Valid()
      ensures ws !in old(sockets)
      ensures sockets == old(sockets)[ws := data] && outbox == old(outbox)[ws := []]
      ensures activeTunnels == old(activeTunnels) && customDomainToSubdomain == old(customDomainToSubdomain)
      ensures pendingRequests == old(pendingRequests) && timers == old(timers) && settled == old(settled)
      ensures nextWaiter == old(nextWaiter) && db == old(db)
    {
      ws := nextSocket;
      nextSocket := nextSocket + 1;
      sockets := sockets[ws := data];
      outbox := outbox[ws := []];
    }

    /** `ws.send(frame)` / `ws.close(...)`. */
    method Emit(ws: SocketId, ops: seq<SocketOp>)
      requires Valid() && ws in sockets
      modifies this`outbox
      ensures Valid()
      ensures outbox == old(outbox)[ws := old(outbox[ws]) + ops]
    {
      outbox := outbox[ws := outbox[ws] + ops];
    }

    /** The `auth` branch of `handleTunnelMessage`. */
    method HandleAuth(ws: SocketId, token: string, subdomain: string, localPort: int,
                      customDomain: Option<string>, now: string)
      requires Valid() && ws in sockets
      modifies this
      ensures Valid()
      ensures pendingRequests == old(pendingRequests) && timers == old(timers) && settled == old(settled)
      ensures nextWaiter == old(nextWaiter) && nextSocket == old(nextSocket)
      ensures var o := DecideAuth(old(db), old(activeTunnels.Keys), token, subdomain, localPort, now);
        !o.Registered? ==>
          && activeTunnels == old(activeTunnels) && customDomainToSubdomain == old(customDomainToSubdomain)
          && sockets == old(sockets)
          && db == (if o.InvalidToken? then old(db) else o.db)
          && outbox == old(outbox)[ws := old(outbox[ws]) + RefusalOps(o)]
      ensures var o := DecideAuth(old(db), old(activeTunnels.Keys), token, subdomain, localPort, now);
        o.Registered? ==>
          && db == o.db
          && sockets == old(sockets)[ws := TunnelData(o.token.userId, o.token.id, subdomain, localPort, o.row.id,
                                                       OrNull(customDomain), true)]
          && activeTunnels == old(activeTunnels)[subdomain := Connection(ws, o.token.userId, o.token.id, subdomain,
                                                       localPort, o.row.id, OrNull(customDomain))]
          && customDomainToSubdomain == (if OrNull(customDomain).Some?
                                         then old(customDomainToSubdomain)[customDomain.value := subdomain]
                                         else old(customDomainToSubdomain))
          && outbox == old(outbox)[ws := old(outbox[ws]) +
               [Send(AuthenticatedFrame(subdomain, ActiveMessage(subdomain, customDomain)))]]
    {
      var outcome := DecideAuth(db, activeTunnels.Keys, token, subdomain, localPort, now);
      if outcome.Registered? {
        Install(ws, outcome.db, outcome.token, outcome.row.id, subdomain, localPort, customDomain);
      } else {
        if !outcome.InvalidToken? {
          db := outcome.db;
        }
        Emit(ws, RefusalOps(outcome));
      }
    }

    /** The end of a successful `auth`: `ws.data` is filled in, the
        connection is stored under its subdomain (and custom host name),
        and one `authenticated` frame is sent. */
    method Install(ws: SocketId, db2: Store, tok: AuthToken, tunnelId: int, subdomain: string, localPort: int,
                   customDomain: Option<string>)
      requires Valid() && ws in sockets && Wf(db2)
      modifies this
      ensures Valid()
      ensures pendingRequests == old(pendingRequests) && timers == old(timers) && settled == old(settled)
      ensures nextWaiter == old(nextWaiter) && nextSocket == old(nextSocket)
      ensures db == db2
      ensures sockets == old(sockets)[ws := TunnelData(tok.userId, tok.id, subdomain, localPort, tunnelId,
                                                       OrNull(customDomain), true)]
      ensures activeTunnels == old(activeTunnels)[subdomain := Connection(ws, tok.userId, tok.id, subdomain,
                                                  localPort, tunnelId, OrNull(customDomain))]
      ensures customDomainToSubdomain == (if OrNull(customDomain).Some?
                                          then old(customDomainToSubdomain)[customDomain.value := subdomain]
                                          else old(customDomainToSubdomain))
      ensures outbox == old(outbox)[ws := old(outbox[ws]) +
                [Send(AuthenticatedFrame(subdomain, ActiveMessage(subdomain, customDomain)))]]
    {
      db := db2;
      var cd := OrNull(customDomain);
      sockets := sockets[ws := TunnelData(tok.userId, tok.id, subdomain, localPort, tunnelId, cd, true)];
      activeTunnels := activeTunnels[subdomain := Connection(ws, tok.userId, tok.id, subdomain, localPort, tunnelId, cd)];
      if cd.Some? {
        customDomainToSubdomain := customDomainToSubdomain[cd.value := subdomain];
      }
      Emit(ws, [Send(AuthenticatedFrame(subdomain, ActiveMessage(subdomain, customDomain)))]);
    }

    /** The `response` branch of `handleTunnelMessage`: a pending id has its
        timer cleared, its waiter resolved and its entry deleted; an id that
        is not pending (unknown, late or repeated) changes nothing. */
    method HandleResponse(response: TunnelResponse)
      requires Valid()
      modifies this`pendingRequests, this`timers, this`settled
      ensures Valid()
      ensures Extends(old(settled), settled)
      ensures response.id in old(pendingRequests) ==>
        var w := old(pendingRequests[response.id]);
        && w !in old(settled)
        && pendingRequests == old(pendingRequests) - {response.id} && timers == old(timers) - {w}
        && settled == old(settled)[w := Resolved(response)]
      ensures response.id !in old(pendingRequests) ==>
        pendingRequests == old(pendingRequests) && timers == old(timers) && settled == old(settled)
    {
      if response.id in pendingRequests {
        var w := pendingRequests[response.id];
        timers := timers - {w};                       // clearTimeout
        settled := settled[w := Resolved(response)];  // resolve
        pendingRequests := pendingRequests - {response.id};
      }
    }

    /** `handleTunnelMessage(ws, message)`: an `auth` message is handled by
        `HandleAuth`, a `response` by `HandleResponse`, a `ping` is answered
        with a `pong`, and anything else is ignored. */
    method HandleTunnelMessage(ws: SocketId, msg: ClientMessage, now: string)
      requires Valid() && ws in sockets
      modifies this
      ensures Valid()
      ensures Extends(old(settled), settled)
      ensures nextWaiter == old(nextWaiter) && nextSocket == old(nextSocket)
      ensures msg.AuthMessage? ==>
        pendingRequests == old(pendingRequests) && timers == old(timers) && settled == old(settled)
      ensures msg.AuthMessage? ==>
        var o := DecideAuth(old(db), old(activeTunnels.Keys), msg.token, msg.subdomain, msg.localPort, now);
        !o.Registered? ==>
          && activeTunnels == old(activeTunnels) && customDomainToSubdomain == old(customDomainToSubdomain)
          && sockets == old(sockets)
          && db == (if o.InvalidToken? then old(db) else o.db)
          && outbox == old(outbox)[ws := old(outbox[ws]) + RefusalOps(o)]
      ensures msg.AuthMessage? ==>
        var o := DecideAuth(old(db), old(activeTunnels.Keys), msg.token, msg.subdomain, msg.localPort, now);
        o.Registered? ==>
          && db == o.db
          && sockets == old(sockets)[ws := TunnelData(o.token.userId, o.token.id, msg.subdomain, msg.localPort,
                                                       o.row.id, OrNull(msg.customDomain), true)]
          && activeTunnels == old(activeTunnels)[msg.subdomain := Connection(ws, o.token.userId, o.token.id,
                                                       msg.subdomain, msg.localPort, o.row.id, OrNull(msg.customDomain))]
          && customDomainToSubdomain == (if OrNull(msg.customDomain).Some?
                                         then old(customDomainToSubdomain)[msg.customDomain.value := msg.subdomain]
                                         else old(customDomainToSubdomain))
          && outbox == old(outbox)[ws := old(outbox[ws]) +
               [Send(AuthenticatedFrame(msg.subdomain, ActiveMessage(msg.subdomain, msg.customDomain)))]]
      // every other message leaves the registry, the sockets and the store alone
      ensures !msg.AuthMessage? ==>
        && db == old(db) && activeTunnels == old(activeTunnels)
        && customDomainToSubdomain == old(customDomainToSubdomain) && sockets == old(sockets)
      ensures msg.ResponseMessage? ==>
        && outbox == old(outbox)
        && (var id := msg.response.id;
            if id in old(pendingRequests) then
              var w := old(pendingRequests[id]);
              && w !in old(settled)
              && pendingRequests == old(pendingRequests) - {id} && timers == old(timers) - {w}
              && settled == old(settled)[w := Resolved(msg.response)]
            else
              pendingRequests == old(pendingRequests) && timers == old(timers) && settled == old(settled))
      ensures msg.PingMessage? ==>
        && outbox == old(outbox)[ws := old(outbox[ws]) + [Send(PongFrame)]]
        && pendingRequests == old(pendingRequests) && timers == old(timers) && settled == old(settled)
      ensures (msg.OtherMessage? || msg.Unparsable?) ==>
        && outbox == old(outbox)
        && pendingRequests == old(pendingRequests) && timers == old(timers) && settled == old(settled)
    {
      match msg {
        case AuthMessage(token, subdomain, localPort, customDomain) =>
          HandleAuth(ws, token, subdomain, localPort, customDomain, now);
        case ResponseMessage(response) =>
          HandleResponse(response);
        case PingMessage =>
          Emit(ws, [Send(PongFrame)]);
        case OtherMessage(_) =>
        case Unparsable =>
      }
    }

    /** `handleTunnelClose(ws)`. */
    method HandleTunnelClose(ws: SocketId, now: string)
      requires Valid() && ws in sockets
      modifies this
      ensures Valid()
      ensures var d := old(sockets[ws]);
        if d.authenticated && d.subdomain != "" then
          && activeTunnels == old(activeTunnels) - {d.subdomain}
          && customDomainToSubdomain == (if OrNull(d.customDomain).Some?
                                         then old(customDomainToSubdomain) - {d.customDomain.value}
                                         else old(customDomainToSubdomain))
          && db == (if d.tunnelId != 0 then DisconnectTunnelsWhere(old(db), (t: Tunnel) => t.id == d.tunnelId, now)
                    else old(db))
        else
          activeTunnels == old(activeTunnels) && customDomainToSubdomain == old(customDomainToSubdomain) && db == old(db)
      // the correlator is not touched: in-flight requests ride out their timers
      ensures pendingRequests == old(pendingRequests) && timers == old(timers) && settled == old(settled)
      ensures sockets == old(sockets) && outbox == old(outbox)
      ensures nextWaiter == old(nextWaiter) && nextSocket == old(nextSocket)
    {
      var d := sockets[ws];
      if d.authenticated && d.subdomain != "" {
        activeTunnels := activeTunnels - {d.subdomain};
        if OrNull(d.customDomain).Some? {
          customDomainToSubdomain := customDomainToSubdomain - {d.customDomain.value};
        }
        if d.tunnelId != 0 {
          db := DisconnectTunnelsWhere(db, (t: Tunnel) => t.id == d.tunnelId, now);
        }
      }
    }

    /** `sendTunnelRequest(subdomain, request)`: the promise is `w`. */
    method SendTunnelRequest(subdomain: string, request: TunnelRequest) returns (w: Waiter)
      requires Valid()
      modifies this
      ensures Valid()
      ensures Extends(old(settled), settled)
      ensures w == old(nextWaiter) && nextWaiter == w + 1 && w !in old(settled)
      ensures subdomain !in old(activeTunnels) ==>
        && settled == old(settled)[w := Rejected(NO_ACTIVE_TUNNEL)]
        && pendingRequests == old(pendingRequests) && timers == old(timers) && outbox == old(outbox)
      ensures subdomain in old(activeTunnels) ==>
        var c := old(activeTunnels[subdomain]);
        && pendingRequests == old(pendingRequests)[request.id := w]
        && timers == old(timers)[w := request.id]
        && settled == old(settled)
        && outbox == old(outbox)[c.ws := old(outbox[c.ws]) + [Send(RequestFrame(request))]]
      ensures activeTunnels == old(activeTunnels) && customDomainToSubdomain == old(customDomainToSubdomain)
      ensures sockets == old(sockets) && db == old(db) && nextSocket == old(nextSocket)
    {
      w := nextWaiter;
      nextWaiter := nextWaiter + 1;
      if subdomain !in activeTunnels {
        settled := settled[w := Rejected(NO_ACTIVE_TUNNEL)];
        return;
      }
      var connection := activeTunnels[subdomain];
      timers := timers[w := request.id];
      pendingRequests := pendingRequests[request.id := w];
      Emit(connection.ws, [Send(RequestFrame(request))]);
    }

    /** `connection.ws.close(code, reason)` and `activeTunnels.delete(subdomain)`,
        done by a handler outside the relay. */
    method Drop(subdomain: string, code: int, reason: string)
      requires Valid() && subdomain in activeTunnels
      modifies this
      ensures Valid()
      ensures var c := old(activeTunnels[subdomain]);
        && activeTunnels == old(activeTunnels) - {subdomain}
        && outbox == old(outbox)[c.ws := old(outbox[c.ws]) + [Close(code, reason)]]
      ensures customDomainToSubdomain == old(customDomainToSubdomain)
      ensures pendingRequests == old(pendingRequests) && timers == old(timers) && settled == old(settled)
      ensures sockets == old(sockets) && db == old(db)
      ensures nextWaiter == old(nextWaiter) && nextSocket == old(nextSocket)
    {
      var c := activeTunnels[subdomain];
      Emit(c.ws, [Close(code, reason)]);
      activeTunnels := activeTunnels - {subdomain};
    }

    /** A write of a handler outside the relay to the store. */
    method SetStore(db2: Store)
      requires Valid() && Wf(db2)
      modifies this`db
      ensures Valid() && db == db2
    {
      db := db2;
    }

    /** The 30 s timer of waiter `w` fires. A cleared timer never fires, so
        the event does nothing for a waiter whose timer is not armed. */
    method FireTimeout(w: Waiter)
      requires Valid()
      modifies this
      ensures Valid()
      ensures Extends(old(settled), settled)
      ensures w in old(timers) ==>
        var id := old(timers[w]);
        && w !in old(settled)
        && pendingRequests == old(pendingRequests) - {id}
        && timers == old(timers) - {w}
        && settled == old(settled)[w := Rejected(REQUEST_TIMEOUT)]
      ensures w !in old(timers) ==>
        pendingRequests == old(pendingRequests) && timers == old(timers) && settled == old(settled)
      ensures activeTunnels == old(activeTunnels) && customDomainToSubdomain == old(customDomainToSubdomain)
      ensures sockets == old(sockets) && outbox == old(outbox) && db == old(db)
      ensures nextWaiter == old(nextWaiter) && nextSocket == old(nextSocket)
    {
      if w in timers {
        var id := timers[w];
        pendingRequests := pendingRequests - {id};
        settled := settled[w := Rejected(REQUEST_TIMEOUT)];
        timers := timers - {w};
      }
    }
  }

  /** Refreshing a token's `lastUsedAt` keeps it acceptable. */
  lemma StillAccepted(db: Store, token: string, now: string)
    requires exists i :: 0 <= i < |db.authTokens| && Accepts(db.authTokens[i], token)
    ensures var db' := AuthenticateToken(db, token, now).1;
      exists i :: 0 <= i < |db'.authTokens| && Accepts(db'.authTokens[i], token)
  {
    var i :| 0 <= i < |db.authTokens| && Accepts(db.authTokens[i], token);
    assert Accepts(AuthenticateToken(db, token, now).1.authTokens[i], token);
  }

  /** An `auth` with an accepted token and a subdomain neither active nor
      recorded registers; afterwards the token is still accepted and only
      `subdomain` has been added to the recorded ones. */
  lemma FreshAuthRegisters(db: Store, active: set<string>, token: string, subdomain: string, localPort: int,
                           now: string)
    requires exists i :: 0 <= i < |db.authTokens| && Accepts(db.authTokens[i], token)
    requires subdomain !in active && !SubdomainRecorded(db, subdomain)
    ensures var o := DecideAuth(db, active, token, subdomain, localPort, now);
      && o.Registered?
      && (exists i :: 0 <= i < |o.db.authTokens| && Accepts(o.db.authTokens[i], token))
      && forall other :: other != subdomain && !SubdomainRecorded(db, other) ==> !SubdomainRecorded(o.db, other)
  {
    StillAccepted(db, token, now);
    var o := DecideAuth(db, active, token, subdomain, localPort, now);
    var db1 := AuthenticateToken(db, token, now).1;
    assert !SubdomainRecorded(db1, subdomain);
    assert o.Registered?;
    assert o.db.authTokens == db1.authTokens;
    forall other | other != subdomain && !SubdomainRecorded(db, other) ensures !SubdomainRecorded(o.db, other) {
      forall i | 0 <= i < |o.db.tunnels| ensures o.db.tunnels[i].subdomain != other {
        if i < |db.tunnels| {
          assert o.db.tunnels[i] == db.tunnels[i];
        }
      }
    }
  }

  /** A successful `auth` message for a subdomain neither active nor
      recorded, on a socket that asks for no custom domain. */
  method FreshAuth(relay: Relay, ws: SocketId, token: string, subdomain: string, localPort: int, now: string)
    requires relay.Valid() && ws in relay.sockets
    requires exists i :: 0 <= i < |relay.db.authTokens| && Accepts(relay.db.authTokens[i], token)
    requires subdomain !in relay.activeTunnels && !SubdomainRecorded(relay.db, subdomain)
    modifies relay
    ensures relay.Valid() && ws in relay.sockets && ws in relay.outbox
    ensures exists i :: 0 <= i < |relay.db.authTokens| && Accepts(relay.db.authTokens[i], token)
    ensures forall x :: x != subdomain && !SubdomainRecorded(old(relay.db), x) ==> !SubdomainRecorded(relay.db, x)
    ensures relay.outbox[ws] == old(relay.outbox[ws]) + [Send(AuthenticatedFrame(subdomain, ActiveMessage(subdomain, None)))]
    ensures relay.sockets[ws].authenticated && relay.sockets[ws].subdomain == subdomain
    ensures relay.sockets[ws].customDomain == None
    ensures relay.activeTunnels.Keys == old(relay.activeTunnels.Keys) + {subdomain}
    ensures relay.activeTunnels[subdomain].ws == ws
    ensures forall k :: k in old(relay.activeTunnels) ==> relay.activeTunnels[k] == old(relay.activeTunnels[k])
  {
    FreshAuthRegisters(relay.db, relay.activeTunnels.Keys, token, subdomain, localPort, now);
    relay.HandleAuth(ws, token, subdomain, localPort, None, now);
  }

  /** Nothing stops a second `auth` on an authenticated socket: with a
      fresh subdomain `b` it succeeds, so the socket serves both `a` and
      `b`. Its `ws.data` then names only `b`, and closing the socket removes
      `b` alone: `a` stays in the registry, pointing at the closed socket. */
  method SecondAuthOrphansFirst(relay: Relay, ws: SocketId, token: string, a: string, b: string,
                                localPort: int, now: string)
    requires relay.Valid() && ws in relay.sockets
    requires exists i :: 0 <= i < |relay.db.authTokens| && Accepts(relay.db.authTokens[i], token)
    requires a != b && b != "" && a !in relay.activeTunnels && b !in relay.activeTunnels
    requires !SubdomainRecorded(relay.db, a) && !SubdomainRecorded(relay.db, b)
    modifies relay
    ensures relay.Valid() && ws in relay.sockets && ws in relay.outbox
    ensures relay.outbox[ws] == old(relay.outbox[ws]) +
      [Send(AuthenticatedFrame(a, ActiveMessage(a, None))), Send(AuthenticatedFrame(b, ActiveMessage(b, None)))]
    ensures relay.sockets[ws].subdomain == b
    ensures b !in relay.activeTunnels
    ensures a in relay.activeTunnels && relay.activeTunnels[a].ws == ws
  {
    FreshAuth(relay, ws, token, a, localPort, now);
    FreshAuth(relay, ws, token, b, localPort, now);
    relay.HandleTunnelClose(ws, now);
  }
}
