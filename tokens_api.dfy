/** The API-token endpoints of src/api/tokens.ts: listing with a masked
    preview, creation of `tnl_` tokens, and revocation. */
module TokensApi {
  import opened Util
  import opened Http
  import opened Db
  import opened TunnelServer

  const TOKEN_PREFIX := "tnl_"
  /** The length of the random part `nanoid(48)` returns. */
  const TOKEN_ID_LENGTH := 48

  // ---------------------------------------------------------------------
  // GET /api/tokens
  // ---------------------------------------------------------------------

  /** `token.substring(0, 8) + "..." + token.substring(token.length - 4)`. */
  function TokenPreview(token: string): (p: string)
    ensures |token| >= 8 ==> p == token[..8] + "..." + token[|token| - 4..]
    ensures 4 <= |token| < 8 ==> p == token + "..." + token[|token| - 4..]
    ensures |token| < 4 ==> p == token + "..." + token
  {
    Substring(token, 0, 8) + "..." + Substring(token, |token| - 4, |token|)
  }

  /** The preview of an issued token shows the prefix, the first four and
      the last four characters of the random part, and hides the other 40. */
  lemma PreviewOfIssuedToken(id: string)
    requires |id| == TOKEN_ID_LENGTH
    ensures TokenPreview(TOKEN_PREFIX + id) == TOKEN_PREFIX + id[..4] + "..." + id[44..]
    ensures |TokenPreview(TOKEN_PREFIX + id)| == 15
  {
    var t := TOKEN_PREFIX + id;
    assert t[..8] == TOKEN_PREFIX + id[..4];
    assert t[|t| - 4..] == id[44..];
  }

  /** A row of the token listing: the selected columns and the preview. */
  datatype TokenListing = TokenListing(
    id: nat, name: string, token: string, lastUsedAt: Option<string>,
    createdAt: string, revokedAt: Option<string>, tokenPreview: string)

  function Listed(t: AuthToken): TokenListing {
    TokenListing(t.id, t.name, t.token, t.lastUsedAt, t.createdAt, t.revokedAt, TokenPreview(t.token))
  }

  /** `handleListTokens`: the user's tokens in table order, each with its
      preview. */
  function ListTokens(db: Store, userId: int): (r: seq<TokenListing>)
    ensures var owned := Filter(db.authTokens, (t: AuthToken) => t.userId == userId);
      && |r| == |owned|
      && forall i :: 0 <= i < |r| ==>
           && r[i].id == owned[i].id && r[i].name == owned[i].name
           && r[i].tokenPreview == TokenPreview(owned[i].token)
           && r[i].revokedAt == owned[i].revokedAt
           && r[i].token == owned[i].token && r[i].lastUsedAt == owned[i].lastUsedAt
           && r[i].createdAt == owned[i].createdAt
  {
    var owned := Filter(db.authTokens, (t: AuthToken) => t.userId == userId);
    seq(|owned|, i requires 0 <= i < |owned| => Listed(owned[i]))
  }

  /** Only the user's own tokens are listed. The listing also carries each
      token in full (the row is spread beside its preview), so the full
      token is not confined to the creation response. */
  lemma ListTokensOwnAndFull(db: Store, userId: int)
    ensures forall l :: l in ListTokens(db, userId) ==>
      exists t :: t in db.authTokens && t.userId == userId && t.id == l.id && l.token == t.token
  {
    var owned := Filter(db.authTokens, (t: AuthToken) => t.userId == userId);
    var r := ListTokens(db, userId);
    forall l | l in r
      ensures exists t :: t in db.authTokens && t.userId == userId && t.id == l.id && l.token == t.token
    {
      var i :| 0 <= i < |r| && r[i] == l;
      assert owned[i] in owned;
      assert l == Listed(owned[i]);
    }
  }

  // ---------------------------------------------------------------------
  // POST /api/tokens
  // ---------------------------------------------------------------------

  const INTERNAL_ERROR := "Internal server error"

  /** The JSON of a created token: id, name, the full token, creation time. */
  function CreatedJson(row: AuthToken): Json {
    JObj([("token", JObj([
      ("id", JInt(row.id)), ("name", JStr(row.name)), ("token", JStr(row.token)),
      ("createdAt", JStr(row.createdAt))]))])
  }

  /** The creation response hands back the full token. */
  lemma CreatedJsonCarriesToken(row: AuthToken)
    ensures Member(CreatedJson(row), "token").Some?
    ensures Member(Member(CreatedJson(row), "token").value, "token") == Some(JStr(row.token))
  {
    var inner := [("id", JInt(row.id)), ("name", JStr(row.name)), ("token", JStr(row.token)),
      ("createdAt", JStr(row.createdAt))];
    assert FirstMember(inner[2..], "token") == Some(JStr(row.token));
    assert FirstMember(inner[1..], "token") == FirstMember(inner[2..], "token");
  }

  predicate TokenTaken(db: Store, token: string) {
    exists i :: 0 <= i < |db.authTokens| && db.authTokens[i].token == token
  }

  /** `handleCreateToken` with `id` the value of `nanoid(48)`. The insert
      throws (and the catch answers 500) when the token is already stored
      or the user row is missing (the foreign key on `user_id`). */
  function CreateToken(db: Store, userId: int, body: RequestBody, id: string, now: string)
    : (r: (HttpResponse, Store))
    ensures body.Unparsable? ==> r == (ErrorResponse(500, INTERNAL_ERROR), db)
    ensures body.Fields? && Field(body, "name").None? ==> r == (ErrorResponse(400, "Token name is required"), db)
    ensures body.Fields? && Field(body, "name").Some? ==>
      var token := TOKEN_PREFIX + id;
      if TokenTaken(db, token) || !UserExists(db, userId) then r == (ErrorResponse(500, INTERNAL_ERROR), db)
      else
        var row := AuthToken(db.nextTokenId, userId, token, Field(body, "name").value, None, now, None);
        && r.1 == db.(authTokens := db.authTokens + [row], nextTokenId := db.nextTokenId + 1)
        && r.0 == JsonResponse(200, CreatedJson(row))
    ensures Wf(db) ==> Wf(r.1)
  {
    if body.Unparsable? then (ErrorResponse(500, INTERNAL_ERROR), db)
    else
      var name := Field(body, "name");
      if name.None? then (ErrorResponse(400, "Token name is required"), db)
      else
        var token := TOKEN_PREFIX + id;
        if TokenTaken(db, token) || !UserExists(db, userId) then (ErrorResponse(500, INTERNAL_ERROR), db)
        else
          var row := AuthToken(db.nextTokenId, userId, token, name.value, None, now, None);
          var db' := db.(authTokens := db.authTokens + [row], nextTokenId := db.nextTokenId + 1);
          assert Wf(db) ==> Wf(db') by {
            if Wf(db) {
              AppendKeepsUnique(db.authTokens, row, (t: AuthToken) => t.id);
              AppendKeepsUnique(db.authTokens, row, (t: AuthToken) => t.token);
              forall t | t in db'.authTokens ensures 1 <= t.id < db'.nextTokenId {
                if t != row { assert t in db.authTokens; }
              }
            }
          }
          (JsonResponse(200, CreatedJson(row)), db')
  }

  /** A created token is live: the relay accepts it at once. */
  lemma CreatedTokenAuthenticates(db: Store, userId: int, body: RequestBody, id: string, now: string, later: string)
    requires Wf(db)
    requires body.Fields? && Field(body, "name").Some?
    requires !TokenTaken(db, TOKEN_PREFIX + id) && UserExists(db, userId)
    ensures AuthenticateToken(CreateToken(db, userId, body, id, now).1, TOKEN_PREFIX + id, later).0.Some?
  {
    var db' := CreateToken(db, userId, body, id, now).1;
    assert Accepts(db'.authTokens[|db.authTokens|], TOKEN_PREFIX + id);
  }

  // ---------------------------------------------------------------------
  // DELETE /api/tokens/:id
  // ---------------------------------------------------------------------

  /** The select of `handleRevokeToken`: that token, if the user owns it. */
  function OwnedToken(db: Store, userId: int, tokenId: int): (t: Option<AuthToken>)
    ensures t.Some? ==> t.value in db.authTokens && t.value.id == tokenId && t.value.userId == userId
    ensures t.None? <==> forall i :: 0 <= i < |db.authTokens| ==>
      !(db.authTokens[i].id == tokenId && db.authTokens[i].userId == userId)
  {
    First(db.authTokens, (t: AuthToken) => t.id == tokenId && t.userId == userId)
  }

  /** `handleRevokeToken`: for an owned token, the connected tunnel rows
      opened with it are marked disconnected and the token gets its
      `revokedAt`; the relay's registry and sockets are not touched. */
  function RevokeToken(db: Store, userId: int, tokenId: int, now: string): (r: (HttpResponse, Store))
    ensures OwnedToken(db, userId, tokenId).None? ==> r == (ErrorResponse(404, "Token not found"), db)
    ensures OwnedToken(db, userId, tokenId).Some? ==>
      && r.0 == JsonResponse(200, JObj([("message", JStr("Token revoked successfully"))]))
      && r.1 == db.(authTokens := r.1.authTokens, tunnels := r.1.tunnels)
      && |r.1.authTokens| == |db.authTokens| && |r.1.tunnels| == |db.tunnels|
      && (forall i :: 0 <= i < |db.authTokens| ==>
            r.1.authTokens[i] == (if db.authTokens[i].id == tokenId
                                  then db.authTokens[i].(revokedAt := Some(now)) else db.authTokens[i]))
      && (forall i :: 0 <= i < |db.tunnels| ==>
            r.1.tunnels[i] == (if db.tunnels[i].tokenId == tokenId && db.tunnels[i].status == Connected
                               then db.tunnels[i].(status := Disconnected, disconnectedAt := Some(now))
                               else db.tunnels[i]))
    ensures Wf(db) ==> Wf(r.1)
  {
    if OwnedToken(db, userId, tokenId).None? then (ErrorResponse(404, "Token not found"), db)
    else
      var db1 := DisconnectTunnelsWhere(db, (t: Tunnel) => t.tokenId == tokenId && t.status == Connected, now);
      var f := (t: AuthToken) => t.(revokedAt := Some(now));
      var db2 := db1.(authTokens := UpdateWhere(db1.authTokens, (t: AuthToken) => t.id == tokenId, f));
      assert Wf(db) ==> Wf(db2) by {
        if Wf(db) {
          UpdateKeepsUnique(db1.authTokens, (t: AuthToken) => t.id == tokenId, f, (t: AuthToken) => t.id);
          UpdateKeepsUnique(db1.authTokens, (t: AuthToken) => t.id == tokenId, f, (t: AuthToken) => t.token);
          forall t | t in db2.authTokens ensures 1 <= t.id < db2.nextTokenId {
            var i :| 0 <= i < |db2.authTokens| && db2.authTokens[i] == t;
            assert db1.authTokens[i] in db1.authTokens;
          }
        }
      }
      (JsonResponse(200, JObj([("message", JStr("Token revoked successfully"))])), db2)
  }

  /** Once revoked, a token no longer authenticates a tunnel. */
  lemma RevokedTokenRejected(db: Store, userId: int, tokenId: int, now: string, later: string)
    requires Wf(db)
    requires OwnedToken(db, userId, tokenId).Some?
    ensures var token := OwnedToken(db, userId, tokenId).value.token;
      AuthenticateToken(RevokeToken(db, userId, tokenId, now).1, token, later).0.None?
  {
    var t := OwnedToken(db, userId, tokenId).value;
    var db' := RevokeToken(db, userId, tokenId, now).1;
    var k :| 0 <= k < |db.authTokens| && db.authTokens[k] == t;
    forall i | 0 <= i < |db'.authTokens| ensures !Accepts(db'.authTokens[i], t.token) {
      if db.authTokens[i].id != tokenId {
        assert db'.authTokens[i] == db.authTokens[i];
        assert db.authTokens[i].token != t.token by {
          assert UniqueBy(db.authTokens, (t: AuthToken) => t.token);
        }
      }
    }
  }

  /** `handleRevokeToken` on the running server: only the store changes;
      a tunnel already connected with the token stays in the registry and
      keeps its socket. */
  method HandleRevokeToken(relay: Relay, userId: int, tokenId: int, now: string) returns (r: HttpResponse)
    requires relay.Valid()
    modifies relay`db
    ensures relay.Valid()
    ensures (r, relay.db) == RevokeToken(old(relay.db), userId, tokenId, now)
  {
    var res := RevokeToken(relay.db, userId, tokenId, now);
    relay.SetStore(res.1);
    r := res.0;
  }
}
