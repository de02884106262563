/** The HTTP values the server produces: JSON documents, bodies and
    responses. A `Headers` value is a map from header name to value; names
    are kept in the lower-case form that the Fetch `Headers` class stores
    them in, so `headers.set("X-Tunnel-Proxy", …)` is written with the
    name "x-tunnel-proxy". */
module Http {
  import opened Util

  /** A JSON document. Object members keep their insertion order. */
  datatype Json =
    | JNull
    | JBool(b: bool)
    | JInt(i: int)
    | JStr(s: string)
    | JArr(items: seq<Json>)
    | JObj(members: seq<(string, Json)>)

  /** A response body: `null`, a string, or a document built by `Response.json`. */
  datatype Body = NoBody | Text(text: string) | JsonBody(json: Json)

  type Headers = map<string, string>

  datatype HttpResponse = HttpResponse(status: int, statusText: string, headers: Headers, body: Body)

  /** `Response.json(value, { status })`. */
  function JsonResponse(status: int, value: Json): (r: HttpResponse)
    ensures r.status == status && r.body == JsonBody(value)
  {
    HttpResponse(status, "", map[], JsonBody(value))
  }

  /** `Response.json({ error: message }, { status })`, the shape of every
      error answer of the management handlers. */
  function ErrorResponse(status: int, message: string): (r: HttpResponse)
    ensures r.status == status && r.body.JsonBody?
    ensures Member(r.body.json, "error") == Some(JStr(message))
  {
    JsonResponse(status, JObj([("error", JStr(message))]))
  }

  /** The value of the first member named `name` of an object, `None` when
      there is none or `j` is not an object (property access on JSON). */
  function Member(j: Json, name: string): (r: Option<Json>)
    ensures r.Some? ==> j.JObj? && exists i :: 0 <= i < |j.members| && j.members[i] == (name, r.value)
  {
    if j.JObj? then FirstMember(j.members, name) else None
  }

  function FirstMember(ms: seq<(string, Json)>, name: string): (r: Option<Json>)
    ensures r.Some? ==> exists i :: 0 <= i < |ms| && ms[i] == (name, r.value)
    ensures r.None? ==> forall i :: 0 <= i < |ms| ==> ms[i].0 != name
    decreases |ms|
  {
    if |ms| == 0 then None
    else if ms[0].0 == name then Some(ms[0].1)
    else
      var r := FirstMember(ms[1..], name);
      assert r.Some? ==> exists i :: 0 <= i < |ms| && ms[i] == (name, r.value) by {
        if r.Some? {
          var i :| 0 <= i < |ms[1..]| && ms[1..][i] == (name, r.value);
          assert ms[i + 1] == (name, r.value);
        }
      }
      r
  }

  /** A request body as the handlers' `const { … } = await req.json()`
      sees it: a document that fails to parse, or the JSON `null` whose
      destructuring throws, is `Unparsable`; any other document gives its
      string members (none for a number, a string or an array, whose fields
      all read as undefined). */
  datatype RequestBody = Unparsable | Fields(fields: map<string, string>)

  /** A member read with JavaScript truthiness in mind (`if (!name)`): an
      absent member and the empty string are both "missing". */
  function Field(body: RequestBody, name: string): (r: Option<string>)
    requires body.Fields?
    ensures r.Some? <==> name in body.fields && body.fields[name] != ""
    ensures r.Some? ==> r.value == body.fields[name]
  {
    if name in body.fields && body.fields[name] != "" then Some(body.fields[name]) else None
  }

  // ---------------------------------------------------------------------
  // Setting headers one by one
  // ---------------------------------------------------------------------

  /** `base` after `headers.set(name, value)` for each entry in turn: a
      later entry for a name overrides an earlier one and the value in
      `base`. */
  function SetAll(base: Headers, entries: seq<(string, string)>): Headers
    decreases |entries|
  {
    if |entries| == 0 then base
    else SetAll(base, entries[..|entries| - 1])[entries[|entries| - 1].0 := entries[|entries| - 1].1]
  }

  /** The loop that sets each entry on a copy of `base`, as the `forEach`
      loops of the router and the proxy do. */
  method ApplyHeaders(base: Headers, entries: seq<(string, string)>) returns (h: Headers)
    ensures h == SetAll(base, entries)
  {
    h := base;
    var i := 0;
    while i < |entries|
      invariant 0 <= i <= |entries|
      invariant h == SetAll(base, entries[..i])
    {
      var (name, value) := entries[i];
      assert entries[..i + 1][..i] == entries[..i];
      h := h[name := value];
      i := i + 1;
    }
    assert entries[..i] == entries;
  }

  /** The names after setting are those of `base` and those of the entries. */
  lemma {:induction false} SetAllKeys(base: Headers, entries: seq<(string, string)>)
    ensures SetAll(base, entries).Keys == base.Keys + set i | 0 <= i < |entries| :: entries[i].0
    decreases |entries|
  {
    if |entries| > 0 {
      var e := entries[..|entries| - 1];
      SetAllKeys(base, e);
      var last := entries[|entries| - 1];
      assert (set i | 0 <= i < |entries| :: entries[i].0) == (set i | 0 <= i < |e| :: e[i].0) + {last.0} by {
        forall i | 0 <= i < |e| ensures e[i] == entries[i] { }
      }
    }
  }

  /** A name no entry sets keeps its value from `base`, or stays absent. */
  lemma {:induction false} SetAllKeeps(base: Headers, entries: seq<(string, string)>, name: string)
    requires forall i :: 0 <= i < |entries| ==> entries[i].0 != name
    ensures name in SetAll(base, entries) <==> name in base
    ensures name in base ==> SetAll(base, entries)[name] == base[name]
    decreases |entries|
  {
    if |entries| > 0 {
      SetAllKeeps(base, entries[..|entries| - 1], name);
    }
  }

  /** The last entry for a name decides its value. */
  lemma {:induction false} SetAllLastWins(base: Headers, entries: seq<(string, string)>, i: nat)
    requires i < |entries|
    requires forall j :: i < j < |entries| ==> entries[j].0 != entries[i].0
    ensures entries[i].0 in SetAll(base, entries) && SetAll(base, entries)[entries[i].0] == entries[i].1
    decreases |entries|
  {
    if i < |entries| - 1 {
      SetAllLastWins(base, entries[..|entries| - 1], i);
    }
  }
}
