/** The custom-domain endpoints of src/api/domains.ts: the domain-name
    rule, registration with a DNS TXT verification record, deletion and
    verification. */
module DomainsApi {
  import opened Util
  import opened Http
  import opened Db

  const VERIFY_PREFIX := "tunnel-verify-"
  /** The length of the random part `nanoid(32)` returns. */
  const VERIFY_ID_LENGTH := 32
  const TXT_PREFIX := "_tunnel-verify."
  const INTERNAL_ERROR := "Internal server error"

  // ---------------------------------------------------------------------
  // The domain-name rule
  // ---------------------------------------------------------------------

  predicate IsLetter(c: char) {
    ('a' <= c <= 'z') || ('A' <= c <= 'Z')
  }

  predicate IsAlnum(c: char) {
    IsLetter(c) || IsDigit(c)
  }

  /** A label before the last dot: letters, digits and hyphens, beginning
      and ending with a letter or digit. */
  predicate HostLabel(l: string) {
    && |l| >= 1 && IsAlnum(l[0]) && IsAlnum(l[|l| - 1])
    && forall i :: 0 <= i < |l| ==> IsAlnum(l[i]) || l[i] == '-'
  }

  /** The last label: two or more letters. */
  predicate TopLabel(l: string) {
    |l| >= 2 && forall i :: 0 <= i < |l| ==> IsLetter(l[i])
  }

  /** The language of the pattern in `handleAddDomain`: two or more
      dot-separated labels, the last a top label, the others host labels. */
  predicate ValidDomain(d: string) {
    var labels := Split(d, '.');
    && |labels| >= 2
    && (forall i :: 0 <= i < |labels| - 1 ==> HostLabel(labels[i]))
    && TopLabel(labels[|labels| - 1])
  }

  /** A string without the separator splits into itself. */
  lemma {:induction false} SplitWithoutSeparator(s: string, sep: char)
    requires NoChar(s, sep)
    ensures Split(s, sep) == [s]
    decreases |s|
  {
    if |s| > 0 {
      SplitWithoutSeparator(s[1..], sep);
      assert [s[0]] + s[1..] == s;
    }
  }

  /** Splitting at the first separator. */
  lemma {:induction false} SplitAtFirst(a: string, b: string, sep: char)
    requires NoChar(a, sep)
    ensures Split(a + [sep] + b, sep) == [a] + Split(b, sep)
    decreases |a|
  {
    var s := a + [sep] + b;
    if |a| == 0 {
      assert s == [sep] + b;
      assert s[1..] == b;
    } else {
      SplitAtFirst(a[1..], b, sep);
      assert s[1..] == a[1..] + [sep] + b;
      assert [a[0]] + a[1..] == a;
    }
  }

  /** A host label, a dot and a top label make a valid domain. */
  lemma TwoLabelDomain(host: string, top: string)
    requires HostLabel(host) && TopLabel(top)
    ensures ValidDomain(host + "." + top)
  {
    assert NoChar(host, '.');
    assert NoChar(top, '.');
    SplitAtFirst(host, top, '.');
    SplitWithoutSeparator(top, '.');
    assert host + "." + top == host + ['.'] + top;
  }

  /** A valid domain has a dot and a non-empty first label, so its first
      label is a proper prefix of it. */
  lemma ValidDomainShape(d: string)
    requires ValidDomain(d)
    ensures !NoChar(d, '.')
    ensures FirstLabel(d) != "" && FirstLabel(d) != d
    ensures d[0] != '.' && d[|d| - 1] != '.'
  {
    var labels := Split(d, '.');
    if NoChar(d, '.') {
      SplitWithoutSeparator(d, '.');
      assert false;
    }
    FirstLabelIsWholeIffNoDot(d);
    assert HostLabel(labels[0]);
    JoinSplit(d, '.');
    JoinFirstAndLast(labels, '.');
  }

  /** A join begins with the first part and ends with the last. */
  lemma {:induction false} JoinFirstAndLast(parts: seq<string>, sep: char)
    requires |parts| >= 1
    ensures parts[0] <= Join(parts, sep)
    ensures |parts[|parts| - 1]| <= |Join(parts, sep)|
    ensures var j := Join(parts, sep); j[|j| - |parts[|parts| - 1]|..] == parts[|parts| - 1]
    decreases |parts|
  {
    if |parts| > 1 {
      JoinFirstAndLast(parts[1..], sep);
      var rest := Join(parts[1..], sep);
      assert Join(parts, sep) == parts[0] + [sep] + rest;
      var j := Join(parts, sep);
      assert j[|j| - |rest|..] == rest;
    }
  }

  /** Concrete names: a two-label name passes; a leading hyphen or a
      one-letter last label fails. */
  lemma ValidDomainAccepts()
    ensures ValidDomain("ab.io")
  {
    TwoLabelDomain("ab", "io");
    assert "ab" + "." + "io" == "ab.io";
  }

  lemma ValidDomainRejectsLeadingHyphen()
    ensures !ValidDomain("-a.io")
  {
    SplitAtFirst("-a", "io", '.');
    SplitWithoutSeparator("io", '.');
    assert "-a" + ['.'] + "io" == "-a.io";
    assert Split("-a.io", '.')[0] == "-a";
    assert "-a"[0] == '-';
  }

  lemma ValidDomainRejectsShortTop()
    ensures !ValidDomain("ab.c")
  {
    SplitAtFirst("ab", "c", '.');
    SplitWithoutSeparator("c", '.');
    assert "ab" + ['.'] + "c" == "ab.c";
    assert Split("ab.c", '.') == ["ab", "c"];
  }

  // ---------------------------------------------------------------------
  // GET /api/domains
  // ---------------------------------------------------------------------

  /** `handleListDomains`: the user's domain rows in table order. */
  function ListDomains(db: Store, userId: int): (r: seq<Domain>)
    ensures forall d :: d in r <==> d in db.domains && d.userId == userId
  {
    Filter(db.domains, (d: Domain) => d.userId == userId)
  }

  // ---------------------------------------------------------------------
  // POST /api/domains
  // ---------------------------------------------------------------------

  predicate DomainTaken(db: Store, domain: string) {
    exists i :: 0 <= i < |db.domains| && db.domains[i].domain == domain
  }

  /** The TXT record the user is told to publish. */
  datatype TxtRecord = TxtRecord(name: string, value: string)

  function VerificationRecord(domain: string, verificationToken: string): TxtRecord {
    TxtRecord(TXT_PREFIX + domain, verificationToken)
  }

  function OptionalJson(o: Option<string>): Json {
    if o.Some? then JStr(o.value) else JNull
  }

  function DomainJson(d: Domain): Json {
    JObj([("id", JInt(d.id)), ("userId", JInt(d.userId)), ("domain", JStr(d.domain)),
      ("sslStatus", JStr(d.sslStatus)), ("verified", JBool(d.verified)),
      ("verificationToken", OptionalJson(d.verificationToken)), ("createdAt", JStr(d.createdAt))])
  }

  function AddedJson(row: Domain, record: TxtRecord): Json {
    JObj([("domain", DomainJson(row)), ("instructions", JObj([
      ("message", JStr("Add a TXT record to verify domain ownership")),
      ("record", JObj([("type", JStr("TXT")), ("name", JStr(record.name)), ("value", JStr(record.value))]))]))])
  }

  /** `handleAddDomain` with `id` the value of `nanoid(32)`. A domain held
      by any user is refused; the insert throws (500) only for a user with
      no row. A new row is pending and unverified, and keeps the
      verification token the TXT record must carry. */
  function AddDomain(db: Store, userId: int, body: RequestBody, id: string, now: string): (r: (HttpResponse, Store))
    ensures body.Unparsable? ==> r == (ErrorResponse(500, INTERNAL_ERROR), db)
    ensures body.Fields? && Field(body, "domain").None? ==> r == (ErrorResponse(400, "Domain is required"), db)
    ensures body.Fields? && Field(body, "domain").Some? ==>
      var d := Field(body, "domain").value;
      && (!ValidDomain(d) ==> r == (ErrorResponse(400, "Invalid domain format"), db))
      && (ValidDomain(d) && DomainTaken(db, d) ==> r == (ErrorResponse(409, "Domain already registered"), db))
      && (ValidDomain(d) && !DomainTaken(db, d) && !UserExists(db, userId) ==> r == (ErrorResponse(500, INTERNAL_ERROR), db))
      && (ValidDomain(d) && !DomainTaken(db, d) && UserExists(db, userId) ==>
           var row := Domain(db.nextDomainId, userId, d, "pending", false, Some(VERIFY_PREFIX + id), now);
           && r.1 == db.(domains := db.domains + [row], nextDomainId := db.nextDomainId + 1)
           && r.0 == JsonResponse(200, AddedJson(row, VerificationRecord(d, VERIFY_PREFIX + id))))
    ensures r.1 != db ==> body.Fields? && Field(body, "domain").Some? && ValidDomain(Field(body, "domain").value)
    ensures Wf(db) ==> Wf(r.1)
  {
    if body.Unparsable? then (ErrorResponse(500, INTERNAL_ERROR), db)
    else
      var domain := Field(body, "domain");
      if domain.None? then (ErrorResponse(400, "Domain is required"), db)
      else
        var d := domain.value;
        if !ValidDomain(d) then (ErrorResponse(400, "Invalid domain format"), db)
        else if DomainTaken(db, d) then (ErrorResponse(409, "Domain already registered"), db)
        else if !UserExists(db, userId) then (ErrorResponse(500, INTERNAL_ERROR), db)
        else
          var token := VERIFY_PREFIX + id;
          var row := Domain(db.nextDomainId, userId, d, "pending", false, Some(token), now);
          var db' := db.(domains := db.domains + [row], nextDomainId := db.nextDomainId + 1);
          assert Wf(db) ==> Wf(db') by {
            if Wf(db) {
              AppendKeepsUnique(db.domains, row, (x: Domain) => x.id);
              AppendKeepsUnique(db.domains, row, (x: Domain) => x.domain);
              forall x | x in db'.domains ensures 1 <= x.id < db'.nextDomainId {
                if x != row { assert x in db.domains; }
              }
            }
          }
          (JsonResponse(200, AddedJson(row, VerificationRecord(d, token))), db')
  }

  /** The stored verification token is the value of the published record,
      and the record is named under the domain. */
  lemma AddedRecordMatchesRow(db: Store, userId: int, body: RequestBody, id: string, now: string)
    requires body.Fields? && Field(body, "domain").Some?
    requires ValidDomain(Field(body, "domain").value) && !DomainTaken(db, Field(body, "domain").value)
    requires UserExists(db, userId)
    ensures var d := Field(body, "domain").value;
      var db' := AddDomain(db, userId, body, id, now).1;
      var row := db'.domains[|db.domains|];
      && row.domain == d && row.userId == userId && !row.verified && row.sslStatus == "pending"
      && row.verificationToken == Some(VerificationRecord(d, VERIFY_PREFIX + id).value)
      && StartsWith(VerificationRecord(d, VERIFY_PREFIX + id).name, TXT_PREFIX)
      && DomainTaken(db', d)
  {
    var d := Field(body, "domain").value;
    var db' := AddDomain(db, userId, body, id, now).1;
    assert db'.domains[|db.domains|].domain == d;
    assert (TXT_PREFIX + d)[..|TXT_PREFIX|] == TXT_PREFIX;
  }

  /** A second registration of a name, by anyone, is refused with 409. */
  lemma SecondRegistrationConflicts(db: Store, userId: int, other: int, body: RequestBody, id: string, id2: string, now: string)
    requires body.Fields? && Field(body, "domain").Some?
    requires ValidDomain(Field(body, "domain").value) && !DomainTaken(db, Field(body, "domain").value)
    requires UserExists(db, userId)
    ensures AddDomain(AddDomain(db, userId, body, id, now).1, other, body, id2, now).0.status == 409
  {
    var d := Field(body, "domain").value;
    var db' := AddDomain(db, userId, body, id, now).1;
    assert db'.domains[|db.domains|].domain == d;
    assert DomainTaken(db', d);
  }

  // ---------------------------------------------------------------------
  // DELETE /api/domains/:id and POST /api/domains/:id/verify
  // ---------------------------------------------------------------------

  /** The select of both handlers: that domain, if the user owns it. */
  function OwnedDomain(db: Store, userId: int, domainId: int): (d: Option<Domain>)
    ensures d.Some? ==> d.value in db.domains && d.value.id == domainId && d.value.userId == userId
    ensures d.None? <==> forall i :: 0 <= i < |db.domains| ==>
      !(db.domains[i].id == domainId && db.domains[i].userId == userId)
  {
    First(db.domains, (d: Domain) => d.id == domainId && d.userId == userId)
  }

  /** `handleDeleteDomain`: an owned domain's row is removed, and no other. */
  function DeleteDomain(db: Store, userId: int, domainId: int): (r: (HttpResponse, Store))
    ensures OwnedDomain(db, userId, domainId).None? ==> r == (ErrorResponse(404, "Domain not found"), db)
    ensures OwnedDomain(db, userId, domainId).Some? ==>
      && r.0 == JsonResponse(200, JObj([("message", JStr("Domain deleted"))]))
      && r.1 == db.(domains := r.1.domains)
      && (forall d :: d in r.1.domains <==> d in db.domains && d.id != domainId)
      && |r.1.domains| < |db.domains|
    ensures Wf(db) ==> Wf(r.1)
  {
    var owned := OwnedDomain(db, userId, domainId);
    if owned.None? then (ErrorResponse(404, "Domain not found"), db)
    else
      var p := (d: Domain) => d.id != domainId;
      var db' := db.(domains := Filter(db.domains, p));
      FilterDropsOne(db.domains, p, owned.value);
      assert Wf(db) ==> Wf(db') by {
        if Wf(db) {
          FilterKeepsUnique(db.domains, p, (x: Domain) => x.id);
          FilterKeepsUnique(db.domains, p, (x: Domain) => x.domain);
        }
      }
      (JsonResponse(200, JObj([("message", JStr("Domain deleted"))])), db')
  }

  /** A filter that rejects some row is shorter. */
  lemma {:induction false} FilterDropsOne<T>(rows: seq<T>, p: T -> bool, x: T)
    requires x in rows && !p(x)
    ensures |Filter(rows, p)| < |rows|
    decreases |rows|
  {
    if rows[0] != x {
      FilterDropsOne(rows[1..], p, x);
    }
  }

  /** `handleVerifyDomain`: an owned domain is marked verified with an
      active certificate status. `dnsThrows` is whether the TXT lookup
      threw; it picks the message and nothing else. */
  function VerifyDomain(db: Store, userId: int, domainId: int, dnsThrows: bool): (r: (HttpResponse, Store))
    ensures OwnedDomain(db, userId, domainId).None? ==> r == (ErrorResponse(404, "Domain not found"), db)
    ensures OwnedDomain(db, userId, domainId).Some? ==>
      && r.0 == JsonResponse(200, JObj([
           ("message", JStr(if dnsThrows then "Domain verified (dev mode)" else "Domain verified successfully")),
           ("verified", JBool(true))]))
      && r.1 == db.(domains := r.1.domains)
      && |r.1.domains| == |db.domains|
      && (forall i :: 0 <= i < |db.domains| ==>
            r.1.domains[i] == (if db.domains[i].id == domainId
                               then db.domains[i].(verified := true, sslStatus := "active") else db.domains[i]))
    ensures Wf(db) ==> Wf(r.1)
  {
    if OwnedDomain(db, userId, domainId).None? then (ErrorResponse(404, "Domain not found"), db)
    else
      var f := (d: Domain) => d.(verified := true, sslStatus := "active");
      var p := (d: Domain) => d.id == domainId;
      var db' := db.(domains := UpdateWhere(db.domains, p, f));
      assert Wf(db) ==> Wf(db') by {
        if Wf(db) {
          UpdateKeepsUnique(db.domains, p, f, (x: Domain) => x.id);
          UpdateKeepsUnique(db.domains, p, f, (x: Domain) => x.domain);
          forall x | x in db'.domains ensures 1 <= x.id < db'.nextDomainId {
            var i :| 0 <= i < |db'.domains| && db'.domains[i] == x;
            assert db.domains[i] in db.domains;
          }
        }
      }
      var message := if dnsThrows then "Domain verified (dev mode)" else "Domain verified successfully";
      (JsonResponse(200, JObj([("message", JStr(message)), ("verified", JBool(true))])), db')
  }

  /** The DNS lookup has no say: both paths leave the same store, with the
      owned domain verified and active. */
  lemma VerifyIgnoresDns(db: Store, userId: int, domainId: int)
    requires OwnedDomain(db, userId, domainId).Some?
    ensures VerifyDomain(db, userId, domainId, true).1 == VerifyDomain(db, userId, domainId, false).1
    ensures exists i ::
      (&& 0 <= i < |VerifyDomain(db, userId, domainId, true).1.domains|
       && var d := VerifyDomain(db, userId, domainId, true).1.domains[i];
          d.id == domainId && d.userId == userId && d.verified && d.sslStatus == "active")
  {
    var t := OwnedDomain(db, userId, domainId).value;
    var i :| 0 <= i < |db.domains| && db.domains[i] == t;
    var db' := VerifyDomain(db, userId, domainId, true).1;
    assert db'.domains[i] == t.(verified := true, sslStatus := "active");
  }
}
