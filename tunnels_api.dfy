/** The tunnel endpoints of src/api/tunnels.ts: a user's tunnel list,
    the forced disconnect, and the dashboard counters. */
module TunnelsApi {
  import opened Util
  import opened Http
  import opened Db
  import opened TunnelServer

  // ---------------------------------------------------------------------
  // GET /api/tunnels
  // ---------------------------------------------------------------------

  /** A row of the listing: the tunnel's columns and, through the left
      join, the name of the token it was opened with (`None` when no token
      row has that id). */
  datatype TunnelListing = TunnelListing(
    id: nat, subdomain: string, customDomain: Option<string>, localPort: int,
    status: TunnelStatus, connectedAt: string, disconnectedAt: Option<string>,
    tokenName: Option<string>)

  /** The joined token's name. */
  function TokenName(db: Store, tokenId: int): (name: Option<string>)
    ensures name.Some? <==> exists i :: 0 <= i < |db.authTokens| && db.authTokens[i].id == tokenId
    ensures name.Some? ==> exists t :: t in db.authTokens && t.id == tokenId && t.name == name.value
  {
    var t := First(db.authTokens, (t: AuthToken) => t.id == tokenId);
    if t.Some? then Some(t.value.name) else None
  }

  function Listing(db: Store, t: Tunnel): TunnelListing {
    TunnelListing(t.id, t.subdomain, t.customDomain, t.localPort, t.status, t.connectedAt,
      t.disconnectedAt, TokenName(db, t.tokenId))
  }

  /** The listing rows of some tunnel rows, in their order. */
  function Listings(db: Store, rows: seq<Tunnel>): (r: seq<TunnelListing>)
    ensures |r| == |rows|
    ensures forall i :: 0 <= i < |rows| ==> r[i] == Listing(db, rows[i])
  {
    seq(|rows|, i requires 0 <= i < |rows| => Listing(db, rows[i]))
  }

  /** `orderBy(desc(connectedAt))`: every row connected no earlier than the
      rows after it. */
  predicate NewestFirst(rows: seq<TunnelListing>) {
    forall i, j :: 0 <= i < j < |rows| ==> TextLe(rows[j].connectedAt, rows[i].connectedAt)
  }

  /** A row no earlier than every row of a newest-first list can go in front. */
  lemma PrependNewest(x: TunnelListing, rows: seq<TunnelListing>)
    requires NewestFirst(rows)
    requires forall y :: y in rows ==> TextLe(y.connectedAt, x.connectedAt)
    ensures NewestFirst([x] + rows)
  {
    var r := [x] + rows;
    forall i, j | 0 <= i < j < |r| ensures TextLe(r[j].connectedAt, r[i].connectedAt) {
      assert r[j] == rows[j - 1];
      if i > 0 { assert r[i] == rows[i - 1]; }
    }
  }

  lemma NewestFirstTail(rows: seq<TunnelListing>)
    requires NewestFirst(rows) && |rows| > 0
    ensures NewestFirst(rows[1..])
    ensures forall y :: y in rows[1..] ==> TextLe(y.connectedAt, rows[0].connectedAt)
  {
    forall i, j | 0 <= i < j < |rows[1..]|
      ensures TextLe(rows[1..][j].connectedAt, rows[1..][i].connectedAt)
    {
      assert rows[1..][j] == rows[j + 1] && rows[1..][i] == rows[i + 1];
    }
    forall y | y in rows[1..] ensures TextLe(y.connectedAt, rows[0].connectedAt) {
      var k :| 0 <= k < |rows[1..]| && rows[1..][k] == y;
      assert rows[k + 1] == y;
    }
  }

  /** Places `x` into a list that is newest first. */
  function InsertNewestFirst(x: TunnelListing, rows: seq<TunnelListing>): (r: seq<TunnelListing>)
    requires NewestFirst(rows)
    ensures NewestFirst(r)
    ensures multiset(r) == multiset(rows) + multiset{x}
    decreases |rows|
  {
    if |rows| == 0 then [x]
    else
      NewestFirstTail(rows);
      assert rows == [rows[0]] + rows[1..];
      if TextLe(rows[0].connectedAt, x.connectedAt) then
        assert forall y :: y in rows ==> TextLe(y.connectedAt, x.connectedAt) by {
          forall y | y in rows ensures TextLe(y.connectedAt, x.connectedAt) {
            if y != rows[0] {
              assert y in rows[1..];
              TextLeTrans(y.connectedAt, rows[0].connectedAt, x.connectedAt);
            }
          }
        }
        PrependNewest(x, rows);
        [x] + rows
      else
        TextLeTotal(rows[0].connectedAt, x.connectedAt);
        var tail := InsertNewestFirst(x, rows[1..]);
        assert forall y :: y in tail ==> TextLe(y.connectedAt, rows[0].connectedAt) by {
          forall y | y in tail ensures TextLe(y.connectedAt, rows[0].connectedAt) {
            assert y in multiset(tail);
            if y != x {
              assert y in multiset(rows[1..]);
            }
          }
        }
        PrependNewest(rows[0], tail);
        [rows[0]] + tail
  }

  /** Sorts rows newest first, keeping exactly the same rows. */
  function SortNewestFirst(rows: seq<TunnelListing>): (r: seq<TunnelListing>)
    ensures NewestFirst(r)
    ensures multiset(r) == multiset(rows)
    decreases |rows|
  {
    if |rows| == 0 then []
    else
      assert rows == [rows[0]] + rows[1..];
      InsertNewestFirst(rows[0], SortNewestFirst(rows[1..]))
  }

  /** `handleListTunnels`: the user's tunnels, and only those, newest
      connection first. */
  function ListTunnels(db: Store, userId: int): (r: seq<TunnelListing>)
    ensures NewestFirst(r)
    ensures multiset(r) == multiset(Listings(db, Filter(db.tunnels, (t: Tunnel) => t.userId == userId)))
  {
    SortNewestFirst(Listings(db, Filter(db.tunnels, (t: Tunnel) => t.userId == userId)))
  }

  /** Every row of the listing is one of the user's tunnels, and every one
      of the user's tunnels is listed. */
  lemma ListTunnelsIsTheUsersRows(db: Store, userId: int)
    ensures forall l :: l in ListTunnels(db, userId) ==>
      exists t :: t in db.tunnels && t.userId == userId && l == Listing(db, t)
    ensures forall t :: t in db.tunnels && t.userId == userId ==> Listing(db, t) in ListTunnels(db, userId)
  {
    var owned := Filter(db.tunnels, (t: Tunnel) => t.userId == userId);
    var ls := Listings(db, owned);
    var r := ListTunnels(db, userId);
    forall l | l in r
      ensures exists t :: t in db.tunnels && t.userId == userId && l == Listing(db, t)
    {
      assert l in multiset(ls);
      var i :| 0 <= i < |ls| && ls[i] == l;
      assert owned[i] in owned;
    }
    forall t | t in db.tunnels && t.userId == userId
      ensures Listing(db, t) in r
    {
      var i :| 0 <= i < |owned| && owned[i] == t;
      assert ls[i] == Listing(db, t);
      assert Listing(db, t) in multiset(ls);
    }
  }

  // ---------------------------------------------------------------------
  // DELETE /api/tunnels/:id
  // ---------------------------------------------------------------------

  const NORMAL_CLOSURE := 1000

  /** The select of `handleDisconnectTunnel`: the tunnel row with that id
      owned by the user. */
  function OwnedTunnel(db: Store, userId: int, tunnelId: int): (t: Option<Tunnel>)
    ensures t.Some? ==> t.value in db.tunnels && t.value.id == tunnelId && t.value.userId == userId
    ensures t.None? <==> forall i :: 0 <= i < |db.tunnels| ==> !(db.tunnels[i].id == tunnelId && db.tunnels[i].userId == userId)
  {
    First(db.tunnels, (t: Tunnel) => t.id == tunnelId && t.userId == userId)
  }

  /** `handleDisconnectTunnel`: closes the live socket of an owned tunnel
      and drops its registry entry, then marks the row disconnected. The
      custom-domain index is left to the close handler that the closing
      socket runs later. */
  method HandleDisconnectTunnel(relay: Relay, userId: int, tunnelId: int, now: string) returns (r: HttpResponse)
    requires relay.Valid()
    modifies relay
    ensures relay.Valid()
    ensures OwnedTunnel(old(relay.db), userId, tunnelId).None? ==>
      && r == ErrorResponse(404, "Tunnel not found")
      && relay.db == old(relay.db) && relay.activeTunnels == old(relay.activeTunnels)
      && relay.outbox == old(relay.outbox)
    ensures var t := OwnedTunnel(old(relay.db), userId, tunnelId);
      t.Some? ==>
        && r == JsonResponse(200, JObj([("message", JStr("Tunnel disconnected"))]))
        && relay.db == DisconnectTunnelsWhere(old(relay.db), (x: Tunnel) => x.id == tunnelId, now)
        && (t.value.subdomain in old(relay.activeTunnels) ==>
             var c := old(relay.activeTunnels[t.value.subdomain]);
             && relay.activeTunnels == old(relay.activeTunnels) - {t.value.subdomain}
             && relay.outbox == old(relay.outbox)[c.ws := old(relay.outbox[c.ws]) + [Close(NORMAL_CLOSURE, "Disconnected by user")]])
        && (t.value.subdomain !in old(relay.activeTunnels) ==>
             relay.activeTunnels == old(relay.activeTunnels) && relay.outbox == old(relay.outbox))
    ensures relay.customDomainToSubdomain == old(relay.customDomainToSubdomain)
    ensures relay.pendingRequests == old(relay.pendingRequests) && relay.timers == old(relay.timers)
    ensures relay.settled == old(relay.settled) && relay.nextWaiter == old(relay.nextWaiter)
    ensures relay.sockets == old(relay.sockets) && relay.nextSocket == old(relay.nextSocket)
  {
    var tunnel := OwnedTunnel(relay.db, userId, tunnelId);
    if tunnel.None? {
      return ErrorResponse(404, "Tunnel not found");
    }
    var subdomain := tunnel.value.subdomain;
    if subdomain in relay.activeTunnels {
      relay.Drop(subdomain, NORMAL_CLOSURE, "Disconnected by user");
    }
    relay.SetStore(DisconnectTunnelsWhere(relay.db, (x: Tunnel) => x.id == tunnelId, now));
    r := JsonResponse(200, JObj([("message", JStr("Tunnel disconnected"))]));
  }

  /** After a successful disconnect the owned row is disconnected, whether
      or not it had a live socket, and no row is lost. */
  lemma DisconnectMarksRow(db: Store, userId: int, tunnelId: int, now: string)
    requires OwnedTunnel(db, userId, tunnelId).Some?
    ensures var db' := DisconnectTunnelsWhere(db, (x: Tunnel) => x.id == tunnelId, now);
      && |db'.tunnels| == |db.tunnels|
      && (forall i :: 0 <= i < |db'.tunnels| && db'.tunnels[i].id == tunnelId ==>
           db'.tunnels[i].status == Disconnected && db'.tunnels[i].disconnectedAt == Some(now))
      && exists i :: 0 <= i < |db'.tunnels| && db'.tunnels[i].id == tunnelId && db'.tunnels[i].userId == userId
  {
    var t := OwnedTunnel(db, userId, tunnelId).value;
    var i :| 0 <= i < |db.tunnels| && db.tunnels[i] == t;
    var db' := DisconnectTunnelsWhere(db, (x: Tunnel) => x.id == tunnelId, now);
    assert db'.tunnels[i].id == tunnelId && db'.tunnels[i].userId == userId;
  }

  // ---------------------------------------------------------------------
  // GET /api/stats
  // ---------------------------------------------------------------------

  datatype TunnelStats = TunnelStats(activeTunnels: nat, totalTunnels: nat, activeTokens: nat, totalTokens: nat)

  /** `handleGetStats`: of the user's tunnel rows, those connected; of the
      user's tokens, those not revoked. Each counter is the number of rows
      of the whole table that belong to the user and pass the test. */
  function GetStats(db: Store, userId: int): (s: TunnelStats)
    ensures s.totalTunnels == Count(db.tunnels, (t: Tunnel) => t.userId == userId)
    ensures s.activeTunnels == Count(db.tunnels, (t: Tunnel) => t.userId == userId && t.status == Connected)
    ensures s.totalTokens == Count(db.authTokens, (t: AuthToken) => t.userId == userId)
    ensures s.activeTokens == Count(db.authTokens, (t: AuthToken) => t.userId == userId && t.revokedAt.None?)
    ensures s.activeTunnels <= s.totalTunnels && s.activeTokens <= s.totalTokens
  {
    var owned := Filter(db.tunnels, (t: Tunnel) => t.userId == userId);
    var tokens := Filter(db.authTokens, (t: AuthToken) => t.userId == userId);
    FilterCount(db.tunnels, (t: Tunnel) => t.userId == userId);
    FilterCount(db.authTokens, (t: AuthToken) => t.userId == userId);
    FilterFilter(db.tunnels, (t: Tunnel) => t.userId == userId, (t: Tunnel) => t.status == Connected,
      (t: Tunnel) => t.userId == userId && t.status == Connected);
    FilterCount(db.tunnels, (t: Tunnel) => t.userId == userId && t.status == Connected);
    FilterFilter(db.authTokens, (t: AuthToken) => t.userId == userId, (t: AuthToken) => t.revokedAt.None?,
      (t: AuthToken) => t.userId == userId && t.revokedAt.None?);
    FilterCount(db.authTokens, (t: AuthToken) => t.userId == userId && t.revokedAt.None?);
    TunnelStats(
      |Filter(owned, (t: Tunnel) => t.status == Connected)|, |owned|,
      |Filter(tokens, (t: AuthToken) => t.revokedAt.None?)|, |tokens|)
  }

  /** The counters count exactly: every connected row of the user is among
      the active ones, and the active tunnels are all the user's rows
      exactly when none of them is disconnected. */
  lemma StatsAllActiveIffNoneDisconnected(db: Store, userId: int)
    ensures var s := GetStats(db, userId);
      s.activeTunnels == s.totalTunnels <==>
        forall t :: t in db.tunnels && t.userId == userId ==> t.status == Connected
  {
    var owned := Filter(db.tunnels, (t: Tunnel) => t.userId == userId);
    FilterAllIffSame(owned, (t: Tunnel) => t.status == Connected);
  }

  /** A filter keeps all rows exactly when every row passes. */
  lemma {:induction false} FilterAllIffSame<T>(rows: seq<T>, p: T -> bool)
    ensures |Filter(rows, p)| == |rows| <==> forall x :: x in rows ==> p(x)
    decreases |rows|
  {
    if |rows| > 0 {
      FilterAllIffSame(rows[1..], p);
      assert forall x :: x in rows <==> x == rows[0] || x in rows[1..];
    }
  }

  /** The JSON of `handleGetStats`: a `stats` object with the four counters. */
  function StatsResponse(db: Store, userId: int): (r: HttpResponse)
    ensures r == JsonResponse(200, JObj([("stats", JObj([
      ("activeTunnels", JInt(Count(db.tunnels, (t: Tunnel) => t.userId == userId && t.status == Connected))),
      ("totalTunnels", JInt(Count(db.tunnels, (t: Tunnel) => t.userId == userId))),
      ("activeTokens", JInt(Count(db.authTokens, (t: AuthToken) => t.userId == userId && t.revokedAt.None?))),
      ("totalTokens", JInt(Count(db.authTokens, (t: AuthToken) => t.userId == userId)))]))]))
  {
    var s := GetStats(db, userId);
    JsonResponse(200, JObj([("stats", JObj([
      ("activeTunnels", JInt(s.activeTunnels)), ("totalTunnels", JInt(s.totalTunnels)),
      ("activeTokens", JInt(s.activeTokens)), ("totalTokens", JInt(s.totalTokens))]))]))
  }
}
