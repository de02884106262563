/** Account registration, login and the current-user lookup of
    src/auth/routes.ts. Password hashing, password checking and JWT signing
    are parameters: `passwordHash` is what `hashPassword` produced,
    `verifyPassword` and `sign` stand for the library calls. */
module AuthRoutes {
  import opened Util
  import opened Http
  import opened Db

  const INTERNAL_ERROR := "Internal server error"
  const INVALID_CREDENTIALS := "Invalid credentials"
  const MIN_PASSWORD_LENGTH := 8

  /** The claims `createToken` signs. */
  datatype JwtPayload = JwtPayload(sub: string, email: string, name: string)

  function UserJson(u: User): Json {
    JObj([("id", JInt(u.id)), ("email", JStr(u.email)), ("name", JStr(u.name))])
  }

  /** `{ token, user: { id, email, name } }` for user `u`, signed with subject
      `String(u.id)`. */
  function Session(u: User, sign: JwtPayload -> string): (r: HttpResponse)
    ensures r.status == 200 && r.body.JsonBody?
    ensures Member(r.body.json, "token") == Some(JStr(sign(JwtPayload(NatToDigits(u.id), u.email, u.name))))
    ensures Member(r.body.json, "user") == Some(UserJson(u))
  {
    var members := [("token", JStr(sign(JwtPayload(NatToDigits(u.id), u.email, u.name)))), ("user", UserJson(u))];
    assert FirstMember(members[1..], "user") == Some(UserJson(u));
    JsonResponse(200, JObj(members))
  }

  /** The user row with that email. */
  function UserByEmail(db: Store, email: string): (u: Option<User>)
    ensures u.Some? ==> u.value in db.users && u.value.email == email
    ensures u.None? <==> forall i :: 0 <= i < |db.users| ==> db.users[i].email != email
  {
    First(db.users, (u: User) => u.email == email)
  }

  // ---------------------------------------------------------------------
  // POST /api/auth/register
  // ---------------------------------------------------------------------

  /** The fields `handleRegister` reads, when all are present and non-empty. */
  predicate HasRegistrationFields(body: RequestBody)
    requires body.Fields?
  {
    Field(body, "email").Some? && Field(body, "password").Some? && Field(body, "name").Some?
  }

  /** `handleRegister`, run with nothing interleaved across the password
      hash: an email already stored is refused with 409 before the insert.
      Two registrations of one email interleaved across the hash both pass
      that check, and the second insert then fails on the UNIQUE email
      (a 500); that interleaving is not modelled here. */
  function Register(db: Store, body: RequestBody, passwordHash: string, sign: JwtPayload -> string, now: string)
    : (r: (HttpResponse, Store))
    ensures body.Unparsable? ==> r == (ErrorResponse(500, INTERNAL_ERROR), db)
    ensures body.Fields? && !HasRegistrationFields(body) ==>
      r == (ErrorResponse(400, "Email, password, and name are required"), db)
    ensures body.Fields? && HasRegistrationFields(body) ==>
      var email, password, name := body.fields["email"], body.fields["password"], body.fields["name"];
      && (|password| < MIN_PASSWORD_LENGTH ==> r == (ErrorResponse(400, "Password must be at least 8 characters"), db))
      && (|password| >= MIN_PASSWORD_LENGTH && UserByEmail(db, email).Some? ==>
            r == (ErrorResponse(409, "Email already registered"), db))
      && (|password| >= MIN_PASSWORD_LENGTH && UserByEmail(db, email).None? ==>
            var row := User(db.nextUserId, email, name, passwordHash, now);
            && r.1 == db.(users := db.users + [row], nextUserId := db.nextUserId + 1)
            && r.0 == Session(row, sign))
    ensures Wf(db) ==> Wf(r.1)
  {
    if body.Unparsable? then (ErrorResponse(500, INTERNAL_ERROR), db)
    else if !HasRegistrationFields(body) then (ErrorResponse(400, "Email, password, and name are required"), db)
    else
      var email, password, name := body.fields["email"], body.fields["password"], body.fields["name"];
      if |password| < MIN_PASSWORD_LENGTH then (ErrorResponse(400, "Password must be at least 8 characters"), db)
      else if UserByEmail(db, email).Some? then (ErrorResponse(409, "Email already registered"), db)
      else
        var row := User(db.nextUserId, email, name, passwordHash, now);
        var db' := db.(users := db.users + [row], nextUserId := db.nextUserId + 1);
        assert Wf(db) ==> Wf(db') by {
          if Wf(db) {
            AppendKeepsUnique(db.users, row, (u: User) => u.id);
            AppendKeepsUnique(db.users, row, (u: User) => u.email);
            forall u | u in db'.users ensures 1 <= u.id < db'.nextUserId {
              if u != row { assert u in db.users; }
            }
          }
        }
        (Session(row, sign), db')
  }

  /** Only a successful registration changes the store, and then by exactly
      one user row. */
  lemma RegisterAddsAtMostOne(db: Store, body: RequestBody, passwordHash: string, sign: JwtPayload -> string, now: string)
    ensures var (r, db') := Register(db, body, passwordHash, sign, now);
      (r.status == 200 && |db'.users| == |db.users| + 1) || (r.status != 200 && db' == db)
  {
  }

  /** Once an email is registered, registering it again is refused with 409
      and leaves the store as it was. */
  lemma SecondRegistrationConflicts(db: Store, body: RequestBody, again: RequestBody,
                                    passwordHash: string, hash2: string, sign: JwtPayload -> string,
                                    now: string, now2: string)
    requires body.Fields? && HasRegistrationFields(body)
    requires |body.fields["password"]| >= MIN_PASSWORD_LENGTH
    requires UserByEmail(db, body.fields["email"]).None?
    requires again.Fields? && HasRegistrationFields(again)
    requires |again.fields["password"]| >= MIN_PASSWORD_LENGTH
    requires again.fields["email"] == body.fields["email"]
    ensures var db' := Register(db, body, passwordHash, sign, now).1;
      Register(db', again, hash2, sign, now2) == (ErrorResponse(409, "Email already registered"), db')
  {
    var db' := Register(db, body, passwordHash, sign, now).1;
    var row := User(db.nextUserId, body.fields["email"], body.fields["name"], passwordHash, now);
    assert db'.users[|db.users|] == row;
  }

  // ---------------------------------------------------------------------
  // POST /api/auth/login
  // ---------------------------------------------------------------------

  /** `handleLogin`. */
  function Login(db: Store, body: RequestBody, verifyPassword: (string, string) -> bool, sign: JwtPayload -> string)
    : (r: HttpResponse)
    ensures body.Unparsable? ==> r == ErrorResponse(500, INTERNAL_ERROR)
    ensures body.Fields? && (Field(body, "email").None? || Field(body, "password").None?) ==>
      r == ErrorResponse(400, "Email and password are required")
    ensures body.Fields? && Field(body, "email").Some? && Field(body, "password").Some? ==>
      var u := UserByEmail(db, body.fields["email"]);
      && (u.None? ==> r == ErrorResponse(401, INVALID_CREDENTIALS))
      && (u.Some? && !verifyPassword(body.fields["password"], u.value.passwordHash) ==>
            r == ErrorResponse(401, INVALID_CREDENTIALS))
      && (u.Some? && verifyPassword(body.fields["password"], u.value.passwordHash) ==> r == Session(u.value, sign))
  {
    if body.Unparsable? then ErrorResponse(500, INTERNAL_ERROR)
    else if Field(body, "email").None? || Field(body, "password").None? then
      ErrorResponse(400, "Email and password are required")
    else
      var u := UserByEmail(db, body.fields["email"]);
      if u.None? then ErrorResponse(401, INVALID_CREDENTIALS)
      else if !verifyPassword(body.fields["password"], u.value.passwordHash) then ErrorResponse(401, INVALID_CREDENTIALS)
      else Session(u.value, sign)
  }

  /** An unknown email and a wrong password get the same answer, so a
      caller cannot tell which accounts exist. */
  lemma LoginFailuresAlike(db: Store, unknown: RequestBody, wrong: RequestBody,
                           verifyPassword: (string, string) -> bool, sign: JwtPayload -> string)
    requires unknown.Fields? && Field(unknown, "email").Some? && Field(unknown, "password").Some?
    requires UserByEmail(db, unknown.fields["email"]).None?
    requires wrong.Fields? && Field(wrong, "email").Some? && Field(wrong, "password").Some?
    requires UserByEmail(db, wrong.fields["email"]).Some?
    requires !verifyPassword(wrong.fields["password"], UserByEmail(db, wrong.fields["email"]).value.passwordHash)
    ensures Login(db, unknown, verifyPassword, sign) == Login(db, wrong, verifyPassword, sign)
    ensures Login(db, unknown, verifyPassword, sign).status == 401
  {
  }

  /** A user who has just registered can log in with the same email and
      password, and gets a session for the new row. */
  lemma RegisteredUserCanLogin(db: Store, body: RequestBody, passwordHash: string,
                               verifyPassword: (string, string) -> bool, sign: JwtPayload -> string, now: string)
    requires Wf(db)
    requires body.Fields? && HasRegistrationFields(body)
    requires |body.fields["password"]| >= MIN_PASSWORD_LENGTH
    requires UserByEmail(db, body.fields["email"]).None?
    requires verifyPassword(body.fields["password"], passwordHash)
    ensures var db' := Register(db, body, passwordHash, sign, now).1;
      Login(db', body, verifyPassword, sign) ==
        Session(User(db.nextUserId, body.fields["email"], body.fields["name"], passwordHash, now), sign)
  {
    var db' := Register(db, body, passwordHash, sign, now).1;
    var row := User(db.nextUserId, body.fields["email"], body.fields["name"], passwordHash, now);
    assert db'.users == db.users + [row];
    FirstAfterAppend(db.users, row, (u: User) => u.email == body.fields["email"]);
  }

  /** The first match in rows extended by a row that alone matches is that row. */
  lemma {:induction false} FirstAfterAppend<T>(rows: seq<T>, x: T, p: T -> bool)
    requires forall i :: 0 <= i < |rows| ==> !p(rows[i])
    requires p(x)
    ensures First(rows + [x], p) == Some(x)
    decreases |rows|
  {
    if |rows| > 0 {
      assert (rows + [x])[1..] == rows[1..] + [x];
      FirstAfterAppend(rows[1..], x, p);
    }
  }

  // ---------------------------------------------------------------------
  // GET /api/auth/me
  // ---------------------------------------------------------------------

  /** The columns `handleMe` selects. */
  function Profile(u: User): Json {
    JObj([("id", JInt(u.id)), ("email", JStr(u.email)), ("name", JStr(u.name)), ("createdAt", JStr(u.createdAt))])
  }

  /** `handleMe`: the user row of the verified subject, or 404. */
  function Me(db: Store, userId: int): (r: HttpResponse)
    ensures (forall i :: 0 <= i < |db.users| ==> db.users[i].id != userId) <==> r == ErrorResponse(404, "User not found")
    ensures r.status == 200 || r.status == 404
    ensures r.status == 200 ==>
      (exists u :: u in db.users && u.id == userId && r == JsonResponse(200, JObj([("user", Profile(u))])))
  {
    var u := First(db.users, (u: User) => u.id == userId);
    if u.None? then ErrorResponse(404, "User not found")
    else JsonResponse(200, JObj([("user", Profile(u.value))]))
  }

  /** Right after registering, the new account's subject resolves to its
      own profile, with the email and name given at registration. */
  lemma MeAfterRegister(db: Store, body: RequestBody, passwordHash: string, sign: JwtPayload -> string, now: string)
    requires Wf(db)
    requires body.Fields? && HasRegistrationFields(body)
    requires |body.fields["password"]| >= MIN_PASSWORD_LENGTH
    requires UserByEmail(db, body.fields["email"]).None?
    ensures var db' := Register(db, body, passwordHash, sign, now).1;
      Me(db', db.nextUserId) ==
        JsonResponse(200, JObj([("user", Profile(User(db.nextUserId, body.fields["email"], body.fields["name"], passwordHash, now)))]))
  {
    var row := User(db.nextUserId, body.fields["email"], body.fields["name"], passwordHash, now);
    assert forall i :: 0 <= i < |db.users| ==> db.users[i].id != db.nextUserId by {
      forall i | 0 <= i < |db.users| ensures db.users[i].id != db.nextUserId {
        assert db.users[i] in db.users;
      }
    }
    FirstAfterAppend(db.users, row, (u: User) => u.id == db.nextUserId);
  }
}
