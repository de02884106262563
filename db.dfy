/** The SQLite store, as values: one sequence of rows per table in insertion
    order, and the next AUTOINCREMENT id of each table. Timestamps are the
    opaque ISO strings the handlers pass in. The UNIQUE columns of the schema
    (users.email, auth_tokens.token, tunnels.subdomain, domains.domain) are
    stated by `Wf`, and every insert below fails when it would break one. */
module Db {
  import opened Util

  datatype User = User(id: nat, email: string, name: string, passwordHash: string, createdAt: string)

  datatype AuthToken = AuthToken(
    id: nat, userId: int, token: string, name: string,
    lastUsedAt: Option<string>, createdAt: string, revokedAt: Option<string>)

  /** The values the `status` column of `tunnels` takes. */
  datatype TunnelStatus = Connected | Disconnected

  datatype Tunnel = Tunnel(
    id: nat, userId: int, tokenId: int, subdomain: string, customDomain: Option<string>,
    localPort: int, status: TunnelStatus, connectedAt: string, disconnectedAt: Option<string>)

  datatype Domain = Domain(
    id: nat, userId: int, domain: string, sslStatus: string, verified: bool,
    verificationToken: Option<string>, createdAt: string)

  datatype Store = Store(
    users: seq<User>, authTokens: seq<AuthToken>, tunnels: seq<Tunnel>, domains: seq<Domain>,
    nextUserId: nat, nextTokenId: nat, nextTunnelId: nat, nextDomainId: nat)

  // ---------------------------------------------------------------------
  // Generic table operations
  // ---------------------------------------------------------------------

  /** No two rows agree on `key`. */
  ghost predicate UniqueBy<T, K>(rows: seq<T>, key: T -> K) {
    forall i, j :: 0 <= i < |rows| && 0 <= j < |rows| && key(rows[i]) == key(rows[j]) ==> i == j
  }

  /** `select … where p … .get()`: the first row satisfying `p`. */
  function First<T>(rows: seq<T>, p: T -> bool): (r: Option<T>)
    ensures r.Some? ==> r.value in rows && p(r.value)
    ensures r.None? <==> forall i :: 0 <= i < |rows| ==> !p(rows[i])
    decreases |rows|
  {
    if |rows| == 0 then None
    else if p(rows[0]) then Some(rows[0])
    else
      var r := First(rows[1..], p);
      assert r.None? ==> forall i :: 0 <= i < |rows| ==> !p(rows[i]) by {
        if r.None? {
          forall i | 0 <= i < |rows| ensures !p(rows[i]) {
            if i > 0 { assert rows[i] == rows[1..][i - 1]; }
          }
        }
      }
      r
  }

  /** `select … where p … .all()`: the rows satisfying `p`, in table order. */
  function Filter<T>(rows: seq<T>, p: T -> bool): (r: seq<T>)
    ensures |r| <= |rows|
    ensures forall x :: x in r ==> x in rows && p(x)
    ensures forall x :: x in rows && p(x) ==> x in r
    decreases |rows|
  {
    if |rows| == 0 then []
    else if p(rows[0]) then [rows[0]] + Filter(rows[1..], p)
    else Filter(rows[1..], p)
  }

  /** `update … set f … where p`: every row satisfying `p` is rewritten by `f`. */
  function UpdateWhere<T>(rows: seq<T>, p: T -> bool, f: T -> T): (r: seq<T>)
    ensures |r| == |rows|
    ensures forall i :: 0 <= i < |rows| ==> r[i] == if p(rows[i]) then f(rows[i]) else rows[i]
  {
    seq(|rows|, i requires 0 <= i < |rows| => if p(rows[i]) then f(rows[i]) else rows[i])
  }

  /** The number of rows satisfying `p`, counted one row at a time. */
  function Count<T>(rows: seq<T>, p: T -> bool): nat
    decreases |rows|
  {
    if |rows| == 0 then 0 else (if p(rows[|rows| - 1]) then 1 else 0) + Count(rows[..|rows| - 1], p)
  }

  /** Counting the rows of a table directly agrees with taking the length of
      its `select … where p`. */
  lemma {:induction false} FilterCount<T>(rows: seq<T>, p: T -> bool)
    ensures |Filter(rows, p)| == Count(rows, p)
    decreases |rows|
  {
    if |rows| > 0 {
      FilterCount(rows[1..], p);
      CountFront(rows, p);
    }
  }

  /** `Count` splits off the first row as well as the last. */
  lemma {:induction false} CountFront<T>(rows: seq<T>, p: T -> bool)
    requires |rows| > 0
    ensures Count(rows, p) == (if p(rows[0]) then 1 else 0) + Count(rows[1..], p)
    decreases |rows|
  {
    var n := |rows| - 1;
    if n > 0 {
      CountFront(rows[..n], p);
      assert rows[..n][1..] == rows[1..][..n - 1];
      assert rows[..n][0] == rows[0] && rows[1..][n - 1] == rows[n];
    } else {
      assert rows[..n] == [] && rows[1..] == [];
    }
  }

  /** A filter of a filter is the filter by both conditions, here written
      as one condition `pq`. */
  lemma {:induction false} FilterFilter<T>(rows: seq<T>, p: T -> bool, q: T -> bool, pq: T -> bool)
    requires forall x :: pq(x) == (p(x) && q(x))
    ensures Filter(Filter(rows, p), q) == Filter(rows, pq)
    decreases |rows|
  {
    if |rows| > 0 {
      FilterFilter(rows[1..], p, q, pq);
    }
  }

  // ---------------------------------------------------------------------
  // Well-formedness: AUTOINCREMENT ids and the UNIQUE columns
  // ---------------------------------------------------------------------

  ghost predicate Wf(db: Store) {
    && db.nextUserId >= 1 && db.nextTokenId >= 1 && db.nextTunnelId >= 1 && db.nextDomainId >= 1
    && (forall u :: u in db.users ==> 1 <= u.id < db.nextUserId)
    && (forall t :: t in db.authTokens ==> 1 <= t.id < db.nextTokenId)
    && (forall t :: t in db.tunnels ==> 1 <= t.id < db.nextTunnelId)
    && (forall d :: d in db.domains ==> 1 <= d.id < db.nextDomainId)
    && UniqueBy(db.users, (u: User) => u.id) && UniqueBy(db.users, (u: User) => u.email)
    && UniqueBy(db.authTokens, (t: AuthToken) => t.id) && UniqueBy(db.authTokens, (t: AuthToken) => t.token)
    && UniqueBy(db.tunnels, (t: Tunnel) => t.id) && UniqueBy(db.tunnels, (t: Tunnel) => t.subdomain)
    && UniqueBy(db.domains, (d: Domain) => d.id) && UniqueBy(db.domains, (d: Domain) => d.domain)
  }

  /** Appending a row whose key no existing row has keeps the key unique. */
  lemma AppendKeepsUnique<T, K>(rows: seq<T>, x: T, key: T -> K)
    requires UniqueBy(rows, key)
    requires forall y :: y in rows ==> key(y) != key(x)
    ensures UniqueBy(rows + [x], key)
  {
    var r := rows + [x];
    assert forall i :: 0 <= i < |rows| ==> r[i] == rows[i] && rows[i] in rows;
    assert r[|rows|] == x;
  }

  /** Rewriting rows without changing their key keeps the key unique. */
  lemma UpdateKeepsUnique<T, K>(rows: seq<T>, p: T -> bool, f: T -> T, key: T -> K)
    requires UniqueBy(rows, key)
    requires forall x :: key(f(x)) == key(x)
    ensures UniqueBy(UpdateWhere(rows, p, f), key)
  {
    var r := UpdateWhere(rows, p, f);
    forall i, j | 0 <= i < |r| && 0 <= j < |r| && key(r[i]) == key(r[j]) ensures i == j {
      assert key(r[i]) == key(rows[i]) && key(r[j]) == key(rows[j]);
    }
  }

  /** Removing rows keeps a key unique. */
  lemma {:induction false} FilterKeepsUnique<T, K>(rows: seq<T>, p: T -> bool, key: T -> K)
    requires UniqueBy(rows, key)
    ensures UniqueBy(Filter(rows, p), key)
    decreases |rows|
  {
    if |rows| > 0 {
      assert UniqueBy(rows[1..], key) by {
        forall i, j | 0 <= i < |rows[1..]| && 0 <= j < |rows[1..]| && key(rows[1..][i]) == key(rows[1..][j])
          ensures i == j
        {
          assert rows[1..][i] == rows[i + 1] && rows[1..][j] == rows[j + 1];
        }
      }
      FilterKeepsUnique(rows[1..], p, key);
      if p(rows[0]) {
        var r := Filter(rows, p);
        var tail := Filter(rows[1..], p);
        assert r == [rows[0]] + tail;
        forall y | y in tail ensures key(y) != key(rows[0]) {
          var k :| 0 <= k < |rows[1..]| && rows[1..][k] == y;
          assert rows[k + 1] == y;
        }
        forall i, j | 0 <= i < |r| && 0 <= j < |r| && key(r[i]) == key(r[j]) ensures i == j {
          if i > 0 { assert r[i] == tail[i - 1]; assert r[i] in tail; }
          if j > 0 { assert r[j] == tail[j - 1]; assert r[j] in tail; }
          if i > 0 && j > 0 { assert key(tail[i - 1]) == key(tail[j - 1]); }
        }
      }
    }
  }

  /** The foreign keys on `user_id` (with `PRAGMA foreign_keys = ON`):
      an insert naming a user that has no row throws. */
  predicate UserExists(db: Store, userId: int) {
    exists i :: 0 <= i < |db.users| && db.users[i].id == userId
  }

  // ---------------------------------------------------------------------
  // The tunnel-record insert of the relay, which the UNIQUE constraint on
  // tunnels.subdomain can make throw
  // ---------------------------------------------------------------------

  /** True when some tunnel row, connected or not, holds `subdomain`. */
  predicate SubdomainRecorded(db: Store, subdomain: string) {
    exists i :: 0 <= i < |db.tunnels| && db.tunnels[i].subdomain == subdomain
  }

  /** `insert(tunnels).values({ userId, tokenId, subdomain, localPort,
      status: "connected" }).returning().get()`; `None` is the UNIQUE
      violation the insert throws. The row's id is the table's next id. */
  function InsertTunnel(db: Store, userId: int, tokenId: int, subdomain: string, localPort: int, now: string)
    : (r: Option<(Store, Tunnel)>)
    ensures r.None? <==> SubdomainRecorded(db, subdomain)
    ensures r.Some? ==> var (db', row) := r.value;
      && row == Tunnel(db.nextTunnelId, userId, tokenId, subdomain, None, localPort, Connected, now, None)
      && db' == db.(tunnels := db.tunnels + [row], nextTunnelId := db.nextTunnelId + 1)
      && (Wf(db) ==> Wf(db'))
  {
    if SubdomainRecorded(db, subdomain) then None
    else
      var row := Tunnel(db.nextTunnelId, userId, tokenId, subdomain, None, localPort, Connected, now, None);
      var db' := db.(tunnels := db.tunnels + [row], nextTunnelId := db.nextTunnelId + 1);
      assert Wf(db) ==> Wf(db') by {
        if Wf(db) {
          AppendKeepsUnique(db.tunnels, row, (t: Tunnel) => t.id);
          AppendKeepsUnique(db.tunnels, row, (t: Tunnel) => t.subdomain);
          forall t | t in db'.tunnels ensures 1 <= t.id < db'.nextTunnelId {
            if t != row { assert t in db.tunnels; }
          }
        }
      }
      Some((db', row))
  }

  /** `update(tunnels).set({ status: "disconnected", disconnectedAt: now })
      .where(p)`. */
  function DisconnectTunnelsWhere(db: Store, p: Tunnel -> bool, now: string): (db': Store)
    ensures db' == db.(tunnels := db'.tunnels)
    ensures |db'.tunnels| == |db.tunnels|
    ensures forall i :: 0 <= i < |db.tunnels| ==>
      db'.tunnels[i] == (if p(db.tunnels[i]) then db.tunnels[i].(status := Disconnected, disconnectedAt := Some(now))
                         else db.tunnels[i])
    ensures Wf(db) ==> Wf(db')
  {
    var f := (t: Tunnel) => t.(status := Disconnected, disconnectedAt := Some(now));
    var db' := db.(tunnels := UpdateWhere(db.tunnels, p, f));
    assert Wf(db) ==> Wf(db') by {
      if Wf(db) {
        UpdateKeepsUnique(db.tunnels, p, f, (t: Tunnel) => t.id);
        UpdateKeepsUnique(db.tunnels, p, f, (t: Tunnel) => t.subdomain);
        forall t | t in db'.tunnels ensures 1 <= t.id < db'.nextTunnelId {
          var i :| 0 <= i < |db'.tunnels| && db'.tunnels[i] == t;
          assert db.tunnels[i] in db.tunnels;
        }
      }
    }
    db'
  }

  /** Disconnecting rows never removes a tunnel row, so a subdomain once
      recorded stays recorded. */
  lemma DisconnectKeepsSubdomains(db: Store, p: Tunnel -> bool, now: string, subdomain: string)
    requires SubdomainRecorded(db, subdomain)
    ensures SubdomainRecorded(DisconnectTunnelsWhere(db, p, now), subdomain)
  {
    var i :| 0 <= i < |db.tunnels| && db.tunnels[i].subdomain == subdomain;
    assert DisconnectTunnelsWhere(db, p, now).tunnels[i].subdomain == subdomain;
  }
}
