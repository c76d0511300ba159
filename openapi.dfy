/** `Registry::openapi_spec` (src/registry.rs): the OpenAPI 3.0.3 document of
    the registered endpoints, as specification functions over the table. The
    loops that build it are methods of `Registries.Registry`. */
module OpenApi {
  import opened Wrappers
  import opened Entries
  import opened Text
  import opened JsonValues
  import opened Http
  import opened RegistryItems
  import Mime

  // ---------------------------------------------------------------------
  // Route templates: `:name` becomes `{name}`

  /** The class `[a-zA-Z0-9_]` of the placeholder pattern. */
  predicate IsNameChar(c: char) {
    ('a' <= c <= 'z') || ('A' <= c <= 'Z') || ('0' <= c <= '9') || c == '_'
  }

  /** Length of the longest run of name characters at the start of `s`. */
  function NameLen(s: string): (n: nat)
    ensures n <= |s|
    ensures forall i :: 0 <= i < n ==> IsNameChar(s[i])
    ensures n < |s| ==> !IsNameChar(s[n])
  {
    if s != [] && IsNameChar(s[0]) then 1 + NameLen(s[1..]) else 0
  }

  /** `replace_all` of `:([a-zA-Z0-9_]+)` by `{$1}`: scanning left to right, a
      colon followed by the longest run of name characters is replaced; any
      other character is kept. */
  function RewritePath(s: string): (r: string)
    decreases |s|
  {
    if s == [] then []
    else
      var n := NameLen(s[1..]);
      if s[0] == ':' && n > 0 then "{" + s[1..1 + n] + "}" + RewritePath(s[1 + n..])
      else [s[0]] + RewritePath(s[1..])
  }

  /** No colon is followed by a name character: nothing left to replace. */
  predicate NoPlaceholder(s: string) {
    forall i :: 0 <= i < |s| - 1 && s[i] == ':' ==> !IsNameChar(s[i + 1])
  }

  lemma RewriteFirst(s: string)
    requires s != []
    ensures RewritePath(s) != []
    ensures RewritePath(s)[0] == if s[0] == ':' && NameLen(s[1..]) > 0 then '{' else s[0]
  {
  }

  /** A template without placeholders is left as it is. */
  lemma {:induction false} RewriteFixed(s: string)
    requires NoPlaceholder(s)
    ensures RewritePath(s) == s
    decreases |s|
  {
    if s != [] {
      assert NoPlaceholder(s[1..]) by {
        forall i | 0 <= i < |s[1..]| - 1 && s[1..][i] == ':'
          ensures !IsNameChar(s[1..][i + 1])
        {
          assert s[i + 1] == ':';
        }
      }
      RewriteFixed(s[1..]);
      assert s == [s[0]] + s[1..];
    }
  }

  lemma NoPlaceholderPrepend(c: char, r: string)
    requires NoPlaceholder(r)
    requires c == ':' && r != [] ==> !IsNameChar(r[0])
    ensures NoPlaceholder([c] + r)
  {
    var s := [c] + r;
    forall i | 0 <= i < |s| - 1 && s[i] == ':'
      ensures !IsNameChar(s[i + 1])
    {
      if i > 0 {
        assert r[i - 1] == ':' && s[i + 1] == r[i];
      }
    }
  }

  lemma NoPlaceholderBraced(name: string, r: string)
    requires NoPlaceholder(r) && ':' !in name
    ensures NoPlaceholder("{" + name + "}" + r)
  {
    var s := "{" + name + "}" + r;
    forall i | 0 <= i < |s| - 1 && s[i] == ':'
      ensures !IsNameChar(s[i + 1])
    {
      if i == 0 {
      } else if i <= |name| {
      } else if i == |name| + 1 {
      } else {
        assert s[i] == r[i - |name| - 2] && s[i + 1] == r[i - |name| - 1];
      }
    }
  }

  /** The rewritten template has no placeholder left. */
  lemma {:induction false} RewriteLeavesNoPlaceholder(s: string)
    ensures NoPlaceholder(RewritePath(s))
    decreases |s|
  {
    if s != [] {
      var n := NameLen(s[1..]);
      if s[0] == ':' && n > 0 {
        RewriteLeavesNoPlaceholder(s[1 + n..]);
        var name := s[1..1 + n];
        assert forall i :: 0 <= i < |name| ==> IsNameChar(name[i]);
        NoPlaceholderBraced(name, RewritePath(s[1 + n..]));
      } else {
        RewriteLeavesNoPlaceholder(s[1..]);
        var r := RewritePath(s[1..]);
        if s[0] == ':' && r != [] {
          RewriteFirst(s[1..]);
        }
        NoPlaceholderPrepend(s[0], r);
      }
    }
  }

  /** Rewriting twice is rewriting once. */
  lemma RewriteIdempotent(s: string)
    ensures RewritePath(RewritePath(s)) == RewritePath(s)
  {
    RewriteLeavesNoPlaceholder(s);
    RewriteFixed(RewritePath(s));
  }

  /** Text without colons passes through unchanged. */
  lemma {:induction false} RewriteLiteral(p: string, s: string)
    requires ':' !in p
    ensures RewritePath(p + s) == p + RewritePath(s)
    decreases |p|
  {
    if p == [] {
      assert p + s == s;
    } else {
      assert p[0] != ':' && ':' !in p[1..];
      assert (p + s)[0] == p[0] && (p + s)[1..] == p[1..] + s;
      RewriteLiteral(p[1..], s);
      assert p == [p[0]] + p[1..];
    }
  }

  /** A colon and a maximal run of name characters become the braced name. */
  lemma RewritePlaceholder(name: string, s: string)
    requires name != [] && forall i :: 0 <= i < |name| ==> IsNameChar(name[i])
    requires s == [] || !IsNameChar(s[0])
    ensures RewritePath(":" + name + s) == "{" + name + "}" + RewritePath(s)
  {
    var t := ":" + name + s;
    assert t[1..] == name + s;
    NameRun(name, s);
    RewriteColon(t, |name|);
    assert t[1..1 + |name|] == name && t[1 + |name|..] == s;
  }

  /** One step of the rewrite at a colon followed by `n` name characters. */
  lemma RewriteColon(t: string, n: nat)
    requires t != [] && t[0] == ':' && n > 0 && NameLen(t[1..]) == n
    ensures RewritePath(t) == "{" + t[1..1 + n] + "}" + RewritePath(t[1 + n..])
  {
  }

  lemma {:induction false} NameRun(name: string, s: string)
    requires forall i :: 0 <= i < |name| ==> IsNameChar(name[i])
    requires s == [] || !IsNameChar(s[0])
    ensures NameLen(name + s) == |name|
  {
    if name != [] {
      assert (name + s)[1..] == name[1..] + s;
      NameRun(name[1..], s);
    }
  }

  lemma RewriteUserId()
    ensures RewritePath("/users/:id") == "/users/{id}"
  {
    var p, name := "/users/", "id";
    assert p[0] != ':' && p[1] != ':' && p[2] != ':' && p[3] != ':' && p[4] != ':' && p[5] != ':' && p[6] != ':';
    assert "/users/:id" == p + (":" + name + "");
    RewriteLiteral(p, ":" + name + "");
    RewritePlaceholder(name, "");
    assert p + ("{" + name + "}" + "") == "/users/{id}";
  }

  // ---------------------------------------------------------------------
  // Operation objects

  function PathParameter(name: string, schema: Json): Json {
    JObject([("in", JString("path")), ("name", JString(name)), ("required", JBool(true)), ("schema", schema)])
  }

  function QueryParameter(name: string, schema: Json): Json {
    JObject([("in", JString("query")), ("name", JString(name)), ("style", JString("deepObject")), ("schema", schema)])
  }

  /** One path parameter per property of the params schema, in order. */
  function PathParameters(props: Members): (r: seq<Json>)
    ensures |r| == |props| && forall i :: 0 <= i < |props| ==> r[i] == PathParameter(props[i].0, props[i].1)
  {
    seq(|props|, i requires 0 <= i < |props| => PathParameter(props[i].0, props[i].1))
  }

  /** One deep-object query parameter per property of the query schema, in order. */
  function QueryParameters(props: Members): (r: seq<Json>)
    ensures |r| == |props| && forall i :: 0 <= i < |props| ==> r[i] == QueryParameter(props[i].0, props[i].1)
  {
    seq(|props|, i requires 0 <= i < |props| => QueryParameter(props[i].0, props[i].1))
  }

  /** `value["properties"].as_object()`. */
  function Properties(schema: Json): Option<Members> {
    match Get(schema, "properties")
    case JObject(ms) => Some(ms)
    case _ => None
  }

  const ParamsPropertiesPanic := Panic("params schema properties must be an object")
  const QueryPropertiesPanic := Panic("query schema properties must be an object")

  /** The `parameters` list: path parameters, then query parameters; a present
      schema whose `properties` is not an object panics, params first. */
  function Parameters(item: RegistryItem): Result<seq<Json>, Panic> {
    var fromParams := PathParameterList(item);
    var fromQuery := QueryParameterList(item);
    if fromParams.Err? then Err(fromParams.error)
    else if fromQuery.Err? then Err(fromQuery.error)
    else Ok(fromParams.value + fromQuery.value)
  }

  /** The path parameters of an item; none for void params. */
  function PathParameterList(item: RegistryItem): Result<seq<Json>, Panic> {
    match item.params
    case None => Ok([])
    case Some(s) =>
      match Properties(s)
      case None => Err(ParamsPropertiesPanic)
      case Some(ps) => Ok(PathParameters(ps))
  }

  /** The query parameters of an item; none for a void query. */
  function QueryParameterList(item: RegistryItem): Result<seq<Json>, Panic> {
    match item.query
    case None => Ok([])
    case Some(s) =>
      match Properties(s)
      case None => Err(QueryPropertiesPanic)
      case Some(ps) => Ok(QueryParameters(ps))
  }

  /** Whether describing the item panics. */
  predicate ItemPanics(item: RegistryItem) {
    || (item.params.Some? && Properties(item.params.value).None?)
    || (item.query.Some? && Properties(item.query.value).None?)
  }

  function JsonContent(schema: Json): Json {
    JObject([("application/json", JObject([("schema", schema)]))])
  }

  const ErrorPayloadRef := JObject([("$ref", JString("#/components/schemas/ErrorPayload"))])

  function ResponsesObject(output: Json): Json {
    JObject([
      ("200", JObject([("description", JString("A successful response")), ("content", JsonContent(output))])),
      ("4XX", JObject([("description", JString("A client error")), ("content", JsonContent(ErrorPayloadRef))])),
      ("5XX", JObject([("description", JString("A server error")), ("content", JsonContent(ErrorPayloadRef))]))])
  }

  /** The members of an operation object: `parameters` only when there are
      any, `requestBody` only for a non-void payload, then `responses`. */
  function OperationMembers(ps: seq<Json>, payload: Option<Json>, output: Json): Members {
    var m1 := if ps == [] then [] else Insert([], "parameters", JArray(ps));
    var m2 :=
      match payload
      case None => m1
      case Some(s) => Insert(m1, "requestBody", RequestBody(s));
    Insert(m2, "responses", ResponsesObject(output))
  }

  function RequestBody(schema: Json): Json {
    JObject([("content", JsonContent(schema))])
  }

  /** The operation object of one item. */
  function EndpointObject(item: RegistryItem): Result<Json, Panic> {
    match Parameters(item)
    case Err(p) => Err(p)
    case Ok(ps) => Ok(JObject(OperationMembers(ps, item.payload, item.output)))
  }

  lemma EndpointObjectPanics(item: RegistryItem)
    ensures EndpointObject(item).Err? <==> ItemPanics(item)
  {
  }

  /** What the operation object holds, key by key. */
  lemma OperationMembersSpec(ps: seq<Json>, payload: Option<Json>, output: Json)
    ensures var ms := OperationMembers(ps, payload, output);
      && Keys(ms) == (if ps == [] then [] else ["parameters"])
                     + (if payload.Some? then ["requestBody"] else [])
                     + ["responses"]
      && Member(ms, "responses") == Some(ResponsesObject(output))
      && (ps != [] ==> Member(ms, "parameters") == Some(JArray(ps)))
      && (payload.Some? ==> Member(ms, "requestBody") == Some(RequestBody(payload.value)))
  {
    OperationKeys(ps, payload, output);
    OperationValues(ps, payload, output);
  }

  lemma OperationKeys(ps: seq<Json>, payload: Option<Json>, output: Json)
    ensures Keys(OperationMembers(ps, payload, output))
      == (if ps == [] then [] else ["parameters"]) + (if payload.Some? then ["requestBody"] else []) + ["responses"]
  {
    var m1 := if ps == [] then [] else Insert([], "parameters", JArray(ps));
    var body := if payload.Some? then RequestBody(payload.value) else JNull;
    var m2 := if payload.Some? then Insert(m1, "requestBody", body) else m1;
    var r := ResponsesObject(output);
    assert OperationMembers(ps, payload, output) == Insert(m2, "responses", r);
    KeysInsert([], "parameters", JArray(ps));
    KeysInsert(m1, "requestBody", body);
    KeysInsert(m2, "responses", r);
  }

  lemma OperationValues(ps: seq<Json>, payload: Option<Json>, output: Json)
    ensures var ms := OperationMembers(ps, payload, output);
      && Member(ms, "responses") == Some(ResponsesObject(output))
      && (ps != [] ==> Member(ms, "parameters") == Some(JArray(ps)))
      && (payload.Some? ==> Member(ms, "requestBody") == Some(RequestBody(payload.value)))
  {
    var m1 := if ps == [] then [] else Insert([], "parameters", JArray(ps));
    var body := if payload.Some? then RequestBody(payload.value) else JNull;
    var m2 := if payload.Some? then Insert(m1, "requestBody", body) else m1;
    var r := ResponsesObject(output);
    assert OperationMembers(ps, payload, output) == Insert(m2, "responses", r);
    MemberInsertSame(m2, "responses", r);
    if ps != [] {
      MemberInsertSame([], "parameters", JArray(ps));
      if payload.Some? {
        MemberInsertOther(m1, "requestBody", body, "parameters");
      }
      MemberInsertOther(m2, "responses", r, "parameters");
    }
    if payload.Some? {
      MemberInsertSame(m1, "requestBody", body);
      MemberInsertOther(m2, "responses", r, "requestBody");
    }
  }

  /** The parameters list holds one entry per property, path ones first, each
      path parameter required. */
  lemma ParametersSpec(item: RegistryItem)
    requires !ItemPanics(item)
    ensures Parameters(item).Ok?
    ensures var ps := Parameters(item).value;
      var np := if item.params.Some? then |Properties(item.params.value).value| else 0;
      var nq := if item.query.Some? then |Properties(item.query.value).value| else 0;
      && |ps| == np + nq
      && (forall i :: 0 <= i < np ==> Get(ps[i], "in") == JString("path") && Get(ps[i], "required") == JBool(true))
      && (forall i :: np <= i < |ps| ==> Get(ps[i], "in") == JString("query") && Get(ps[i], "style") == JString("deepObject"))
  {
    var ps := Parameters(item).value;
    var np := if item.params.Some? then |Properties(item.params.value).value| else 0;
    forall i | 0 <= i < np
      ensures Get(ps[i], "in") == JString("path") && Get(ps[i], "required") == JBool(true)
    {
      GetFirst(ps[i].members, "in", 0);
      GetFirst(ps[i].members, "required", 2);
    }
    forall i | np <= i < |ps|
      ensures Get(ps[i], "in") == JString("query") && Get(ps[i], "style") == JString("deepObject")
    {
      GetFirst(ps[i].members, "in", 0);
      GetFirst(ps[i].members, "style", 2);
    }
  }

  /** Both error classes point at the shared `ErrorPayload` component. */
  lemma ErrorResponsesShareSchema(output: Json)
    ensures var r := ResponsesObject(output);
      && Get(Get(Get(Get(r, "4XX"), "content"), "application/json"), "schema") == ErrorPayloadRef
      && Get(Get(Get(Get(r, "5XX"), "content"), "application/json"), "schema") == ErrorPayloadRef
      && Get(Get(Get(Get(r, "200"), "content"), "application/json"), "schema") == output
  {
    var r := ResponsesObject(output);
    GetFirst(r.members, "200", 0);
    GetFirst(r.members, "4XX", 1);
    GetFirst(r.members, "5XX", 2);
    ResponseSchema("A successful response", output);
    ResponseSchema("A client error", ErrorPayloadRef);
    ResponseSchema("A server error", ErrorPayloadRef);
  }

  lemma ResponseSchema(description: string, schema: Json)
    ensures Get(Get(Get(JObject([("description", JString(description)), ("content", JsonContent(schema))]),
              "content"), "application/json"), "schema") == schema
  {
    var o := JObject([("description", JString(description)), ("content", JsonContent(schema))]);
    GetFirst(o.members, "content", 1);
    GetFirst(JsonContent(schema).members, "application/json", 0);
    GetFirst([("schema", schema)], "schema", 0);
  }

  // ---------------------------------------------------------------------
  // Folds over the table

  /** Assigning `obj[key] = value` entry after entry, starting from `{}`; the
      first entry that panics stops the fold. */
  function FoldInsert(entries: seq<(string, Result<Json, Panic>)>): Result<Members, Panic> {
    if entries == [] then Ok([])
    else
      match FoldInsert(entries[..|entries| - 1])
      case Err(p) => Err(p)
      case Ok(ms) =>
        match entries[|entries| - 1].1
        case Err(p) => Err(p)
        case Ok(v) => Ok(Insert(ms, entries[|entries| - 1].0, v))
  }

  /** The fold panics exactly when one of its entries does, and then with the
      first entry's panic. */
  lemma {:induction false} FoldInsertPanics(entries: seq<(string, Result<Json, Panic>)>)
    ensures FoldInsert(entries).Err? <==> exists i :: 0 <= i < |entries| && entries[i].1.Err?
    ensures FoldInsert(entries).Err? ==>
      exists i :: 0 <= i < |entries| && entries[i].1 == Err(FoldInsert(entries).error)
        && forall j :: 0 <= j < i ==> entries[j].1.Ok?
    decreases |entries|
  {
    if entries != [] {
      var init := entries[..|entries| - 1];
      FoldInsertPanics(init);
      assert forall i :: 0 <= i < |init| ==> init[i] == entries[i];
    }
  }

  /** Once a prefix of the entries panics, the whole fold panics the same way. */
  lemma {:induction false} FoldInsertErrExtends(entries: seq<(string, Result<Json, Panic>)>, n: nat)
    requires n <= |entries| && FoldInsert(entries[..n]).Err?
    ensures FoldInsert(entries) == FoldInsert(entries[..n])
    decreases |entries|
  {
    if n == |entries| {
      assert entries[..n] == entries;
    } else {
      var init := entries[..|entries| - 1];
      assert init[..n] == entries[..n];
      FoldInsertErrExtends(init, n);
    }
  }

  /** The members a panic-free fold produces when its keys are distinct. */
  function OkMembers(entries: seq<(string, Result<Json, Panic>)>): (ms: Members)
    requires forall i :: 0 <= i < |entries| ==> entries[i].1.Ok?
    ensures |ms| == |entries|
    ensures forall i :: 0 <= i < |entries| ==> ms[i] == (entries[i].0, entries[i].1.value)
  {
    seq(|entries|, i requires 0 <= i < |entries| => (entries[i].0, entries[i].1.value))
  }

  /** Without panics and with distinct keys, the fold holds every entry under
      its key, in the order of the entries. */
  lemma {:induction false} FoldInsertContents(entries: seq<(string, Result<Json, Panic>)>)
    requires forall i :: 0 <= i < |entries| ==> entries[i].1.Ok?
    requires forall i, j :: 0 <= i < j < |entries| ==> entries[i].0 != entries[j].0
    ensures FoldInsert(entries) == Ok(OkMembers(entries))
    decreases |entries|
  {
    if entries != [] {
      var n := |entries| - 1;
      var init := entries[..n];
      FoldInsertContents(init);
      var ms := OkMembers(init);
      assert FindKey(ms, entries[n].0).None?;
      assert ms + [(entries[n].0, entries[n].1.value)] == OkMembers(entries);
    }
  }

  /** Entry `i` is the last one under its key. */
  predicate LastWith(entries: seq<(string, Result<Json, Panic>)>, i: nat) {
    i < |entries| && forall j :: i < j < |entries| ==> entries[j].0 != entries[i].0
  }

  /** Entry `i` is the first one under its key. */
  predicate FirstWith(entries: seq<(string, Result<Json, Panic>)>, i: nat) {
    i < |entries| && forall j :: 0 <= j < i ==> entries[j].0 != entries[i].0
  }

  /** Whatever the entries, a panic-free fold has distinct keys: a repeated
      key is written over, never added twice. */
  lemma {:induction false} FoldInsertDistinct(entries: seq<(string, Result<Json, Panic>)>)
    requires forall i :: 0 <= i < |entries| ==> entries[i].1.Ok?
    ensures FoldInsert(entries).Ok? && DistinctKeys(FoldInsert(entries).value)
    decreases |entries|
  {
    if entries != [] {
      var n := |entries| - 1;
      FoldInsertDistinct(entries[..n]);
      KeysInsert(FoldInsert(entries[..n]).value, entries[n].0, entries[n].1.value);
    }
  }

  /** A key no entry has is not in the fold. */
  lemma {:induction false} FoldInsertAbsent(entries: seq<(string, Result<Json, Panic>)>, key: string)
    requires forall i :: 0 <= i < |entries| ==> entries[i].1.Ok? && entries[i].0 != key
    ensures FoldInsert(entries).Ok? && FindKey(FoldInsert(entries).value, key).None?
    decreases |entries|
  {
    if entries != [] {
      var n := |entries| - 1;
      FoldInsertAbsent(entries[..n], key);
      var ms := FoldInsert(entries[..n]).value;
      if FindKey(ms, entries[n].0).Some? {
        SameKeysAfterInsert(ms, entries[n].0, entries[n].1.value);
      } else {
        FindKeyAppendOther(ms, (entries[n].0, entries[n].1.value), key);
      }
    }
  }

  /** With repeated keys, a key holds the value of its last entry. */
  lemma {:induction false} FoldInsertLastWins(entries: seq<(string, Result<Json, Panic>)>, i: nat)
    requires forall j :: 0 <= j < |entries| ==> entries[j].1.Ok?
    requires LastWith(entries, i)
    ensures FoldInsert(entries).Ok?
    ensures Member(FoldInsert(entries).value, entries[i].0) == Some(entries[i].1.value)
    decreases |entries|
  {
    var n := |entries| - 1;
    var init := entries[..n];
    FoldInsertDistinct(init);
    var ms := FoldInsert(init).value;
    if i == n {
      MemberInsertSame(ms, entries[n].0, entries[n].1.value);
    } else {
      assert init[i] == entries[i];
      assert LastWith(init, i);
      FoldInsertLastWins(init, i);
      MemberInsertOther(ms, entries[n].0, entries[n].1.value, entries[i].0);
    }
  }

  /** One step of a panic-free fold: the last entry written into the fold of
      the others. */
  lemma FoldInsertStep(entries: seq<(string, Result<Json, Panic>)>)
    requires entries != [] && forall j :: 0 <= j < |entries| ==> entries[j].1.Ok?
    ensures FoldInsert(entries[..|entries| - 1]).Ok?
    ensures FoldInsert(entries) == Ok(Insert(FoldInsert(entries[..|entries| - 1]).value,
                                             entries[|entries| - 1].0, entries[|entries| - 1].1.value))
  {
    FoldInsertDistinct(entries[..|entries| - 1]);
  }

  /** Once a key is in the fold of a prefix, later entries never move it. */
  lemma {:induction false} FoldInsertKeepsPlace(entries: seq<(string, Result<Json, Panic>)>,
                                                pre: seq<(string, Result<Json, Panic>)>, key: string)
    requires forall j :: 0 <= j < |entries| ==> entries[j].1.Ok?
    requires pre <= entries
    requires FoldInsert(pre).Ok? && FindKey(FoldInsert(pre).value, key).Some?
    ensures FoldInsert(entries).Ok?
    ensures FindKey(FoldInsert(entries).value, key) == FindKey(FoldInsert(pre).value, key)
    decreases |entries|
  {
    if pre != entries {
      var init := entries[..|entries| - 1];
      assert pre <= init;
      FoldInsertKeepsPlace(init, pre, key);
      FoldInsertStep(entries);
      FindKeyInsertPresent(FoldInsert(init).value, entries[|entries| - 1].0, entries[|entries| - 1].1.value, key);
    }
  }

  /** With repeated keys, a key keeps the place its first entry gave it:
      right after the keys of the entries before that one. */
  lemma FoldInsertFirstPlace(entries: seq<(string, Result<Json, Panic>)>, i: nat)
    requires forall j :: 0 <= j < |entries| ==> entries[j].1.Ok?
    requires FirstWith(entries, i)
    ensures FoldInsert(entries[..i]).Ok? && FoldInsert(entries).Ok?
    ensures FindKey(FoldInsert(entries).value, entries[i].0) == Some(|FoldInsert(entries[..i]).value|)
  {
    var pre := entries[..i];
    var key := entries[i].0;
    FoldInsertAbsent(pre, key);
    var ms := FoldInsert(pre).value;
    var upto := entries[..i + 1];
    assert upto[..i] == pre && upto[i] == entries[i];
    FindKeyAppendNew(ms, (key, entries[i].1.value));
    FoldInsertKeepsPlace(entries, upto, key);
  }

  /** In an object with distinct keys each member is found under its key. */
  lemma MemberOfDistinct(ms: Members, i: nat)
    requires DistinctKeys(ms) && i < |ms|
    ensures Member(ms, ms[i].0) == Some(ms[i].1)
  {
    FindKeyFirst(ms, ms[i].0, i);
  }

  /** `methods[method.as_str().to_ascii_lowercase()] = endpoint`. */
  function MethodKey(m: Method): string {
    LowerAscii(AsStr(m))
  }

  function MethodEntries(mm: MethodMap): (r: seq<(string, Result<Json, Panic>)>)
    ensures |r| == |mm| && forall j :: 0 <= j < |mm| ==> r[j] == (MethodKey(mm[j].0), EndpointObject(mm[j].1))
  {
    seq(|mm|, j requires 0 <= j < |mm| => (MethodKey(mm[j].0), EndpointObject(mm[j].1)))
  }

  /** The `methods` object of one path. */
  function MethodsObject(mm: MethodMap): Result<Members, Panic> {
    FoldInsert(MethodEntries(mm))
  }

  function AsObject(r: Result<Members, Panic>): Result<Json, Panic> {
    match r
    case Err(p) => Err(p)
    case Ok(ms) => Ok(JObject(ms))
  }

  function PathEntries(m: PathMap): (r: seq<(string, Result<Json, Panic>)>)
    ensures |r| == |m| && forall i :: 0 <= i < |m| ==> r[i] == (RewritePath(m[i].0), AsObject(MethodsObject(m[i].1)))
  {
    seq(|m|, i requires 0 <= i < |m| => (RewritePath(m[i].0), AsObject(MethodsObject(m[i].1))))
  }

  /** The `paths` object: `paths[path] = methods` for each path in order under
      its rewritten template. */
  function PathsObject(m: PathMap): Result<Members, Panic> {
    FoldInsert(PathEntries(m))
  }

  /** Some item in the table panics when described. */
  predicate AnyItemPanics(m: PathMap) {
    exists i, j :: 0 <= i < |m| && 0 <= j < |m[i].1| && ItemPanics(m[i].1[j].1)
  }

  lemma MethodsObjectPanics(mm: MethodMap)
    ensures MethodsObject(mm).Err? <==> exists j :: 0 <= j < |mm| && ItemPanics(mm[j].1)
  {
    var es := MethodEntries(mm);
    FoldInsertPanics(es);
    forall j | 0 <= j < |mm|
      ensures es[j].1.Err? <==> ItemPanics(mm[j].1)
    {
      EndpointObjectPanics(mm[j].1);
    }
  }

  /** The document can be built exactly when no item's params or query schema
      has a non-object `properties`. */
  lemma PathsObjectPanics(m: PathMap)
    ensures PathsObject(m).Err? <==> AnyItemPanics(m)
  {
    var es := PathEntries(m);
    FoldInsertPanics(es);
    forall i | 0 <= i < |m|
      ensures es[i].1.Err? <==> exists j :: 0 <= j < |m[i].1| && ItemPanics(m[i].1[j].1)
    {
      MethodsObjectPanics(m[i].1);
    }
  }

  lemma MethodEntriesOk(mm: MethodMap)
    requires forall j :: 0 <= j < |mm| ==> !ItemPanics(mm[j].1)
    ensures forall j :: 0 <= j < |mm| ==> MethodEntries(mm)[j].1.Ok?
  {
    var es := MethodEntries(mm);
    forall j | 0 <= j < |mm|
      ensures es[j].1.Ok?
    {
      EndpointObjectPanics(mm[j].1);
    }
  }

  /** With distinct method keys, every item of a path appears in its
      `methods` object under its lower-case method, in registration order. */
  lemma MethodsObjectContents(mm: MethodMap)
    requires forall j :: 0 <= j < |mm| ==> !ItemPanics(mm[j].1)
    requires forall j, k :: 0 <= j < k < |mm| ==> MethodKey(mm[j].0) != MethodKey(mm[k].0)
    ensures MethodsObject(mm).Ok?
    ensures var ms := MethodsObject(mm).value;
      && |ms| == |mm|
      && forall j :: 0 <= j < |mm| ==>
           && ms[j].0 == MethodKey(mm[j].0)
           && EndpointObject(mm[j].1).Ok?
           && Member(ms, MethodKey(mm[j].0)) == Some(EndpointObject(mm[j].1).value)
  {
    var es := MethodEntries(mm);
    MethodEntriesOk(mm);
    assert forall j, k :: 0 <= j < k < |es| ==> es[j].0 != es[k].0;
    FoldInsertContents(es);
    FoldMembers(es);
    var ms := OkMembers(es);
    assert MethodsObject(mm) == Ok(ms);
    forall j | 0 <= j < |mm|
      ensures ms[j].0 == MethodKey(mm[j].0) && EndpointObject(mm[j].1).Ok?
      ensures Member(ms, MethodKey(mm[j].0)) == Some(EndpointObject(mm[j].1).value)
    {
      assert es[j] == (MethodKey(mm[j].0), EndpointObject(mm[j].1));
    }
  }

  /** Each entry of a panic-free fold with distinct keys is its member. */
  lemma FoldMembers(entries: seq<(string, Result<Json, Panic>)>)
    requires forall i :: 0 <= i < |entries| ==> entries[i].1.Ok?
    requires forall i, j :: 0 <= i < j < |entries| ==> entries[i].0 != entries[j].0
    ensures forall i :: 0 <= i < |entries| ==> Member(OkMembers(entries), entries[i].0) == Some(entries[i].1.value)
  {
    forall i | 0 <= i < |entries|
      ensures Member(OkMembers(entries), entries[i].0) == Some(entries[i].1.value)
    {
      MemberOfDistinct(OkMembers(entries), i);
    }
  }

  /** With distinct rewritten paths, every path appears in the `paths`
      object under its rewritten template, in registration order, holding its
      `methods` object. */
  lemma PathsObjectContents(m: PathMap)
    requires !AnyItemPanics(m)
    requires forall i, j :: 0 <= i < j < |m| ==> RewritePath(m[i].0) != RewritePath(m[j].0)
    ensures PathsObject(m).Ok?
    ensures var ps := PathsObject(m).value;
      && |ps| == |m|
      && forall i :: 0 <= i < |m| ==>
           && MethodsObject(m[i].1).Ok?
           && ps[i].0 == RewritePath(m[i].0)
           && Member(ps, RewritePath(m[i].0)) == Some(JObject(MethodsObject(m[i].1).value))
  {
    var es := PathEntries(m);
    forall i | 0 <= i < |m|
      ensures es[i].1.Ok?
    {
      MethodsObjectPanics(m[i].1);
    }
    FoldInsertContents(es);
    FoldMembers(es);
  }

  /** Without distinct method keys: when methods `j` (the first) and `k` (the
      last) of a path share a lower-case name, the methods object still has
      distinct keys, and that name sits where method `j` put it and holds the
      operation of method `k`; the earlier operations under it are lost. */
  lemma MethodsObjectRepeated(mm: MethodMap, j: nat, k: nat)
    requires forall i :: 0 <= i < |mm| ==> !ItemPanics(mm[i].1)
    requires j < |mm| && k < |mm| && MethodKey(mm[j].0) == MethodKey(mm[k].0)
    requires forall i :: 0 <= i < j ==> MethodKey(mm[i].0) != MethodKey(mm[j].0)
    requires forall i :: k < i < |mm| ==> MethodKey(mm[i].0) != MethodKey(mm[k].0)
    ensures MethodsObject(mm).Ok? && MethodsObject(mm[..j]).Ok?
    ensures DistinctKeys(MethodsObject(mm).value)
    ensures FindKey(MethodsObject(mm).value, MethodKey(mm[j].0)) == Some(|MethodsObject(mm[..j]).value|)
    ensures EndpointObject(mm[k].1).Ok?
    ensures Member(MethodsObject(mm).value, MethodKey(mm[j].0)) == Some(EndpointObject(mm[k].1).value)
  {
    var es := MethodEntries(mm);
    MethodEntriesOk(mm);
    assert MethodEntries(mm[..j]) == es[..j];
    assert FirstWith(es, j) && LastWith(es, k);
    FoldInsertDistinct(es);
    FoldInsertFirstPlace(es, j);
    FoldInsertLastWins(es, k);
  }

  /** Without distinct rewritten templates: when paths `i` (the first) and `k`
      (the last) rewrite to one template, the paths object still has distinct
      keys, and that template sits where path `i` put it and holds the methods
      object of path `k`; the earlier paths under it are lost. */
  lemma PathsObjectRepeated(m: PathMap, i: nat, k: nat)
    requires !AnyItemPanics(m)
    requires i < |m| && k < |m| && RewritePath(m[i].0) == RewritePath(m[k].0)
    requires forall h :: 0 <= h < i ==> RewritePath(m[h].0) != RewritePath(m[i].0)
    requires forall h :: k < h < |m| ==> RewritePath(m[h].0) != RewritePath(m[k].0)
    ensures PathsObject(m).Ok? && PathsObject(m[..i]).Ok?
    ensures DistinctKeys(PathsObject(m).value)
    ensures FindKey(PathsObject(m).value, RewritePath(m[i].0)) == Some(|PathsObject(m[..i]).value|)
    ensures MethodsObject(m[k].1).Ok?
    ensures Member(PathsObject(m).value, RewritePath(m[i].0)) == Some(JObject(MethodsObject(m[k].1).value))
  {
    var es := PathEntries(m);
    forall h | 0 <= h < |m|
      ensures es[h].1.Ok?
    {
      MethodsObjectPanics(m[h].1);
    }
    assert PathEntries(m[..i]) == es[..i];
    assert FirstWith(es, i) && LastWith(es, k);
    FoldInsertDistinct(es);
    FoldInsertFirstPlace(es, i);
    FoldInsertLastWins(es, k);
  }

  /** `GET` and the extension method `get` are two methods a registry accepts
      on one path, but they share the key `get`. */
  lemma MethodKeyCollision(t: string)
    requires t == "get"
    ensures ValidMethod(Extension(t)) && Extension(t) != GET
    ensures MethodKey(Extension(t)) == MethodKey(GET) == "get"
  {
    assert Mime.IsTchar(t[0]) && Mime.IsTchar(t[1]) && Mime.IsTchar(t[2]);
    assert t !in StandardNames;
  }

  /** Two entries under one key fold into one member holding the second value. */
  lemma FoldInsertSameKey(es: seq<(string, Result<Json, Panic>)>, key: string, u: Json, v: Json)
    requires es == [(key, Ok(u)), (key, Ok(v))]
    ensures FoldInsert(es) == Ok([(key, v)])
  {
    var first := es[..1];
    assert first == [(key, Ok(u))];
    FoldInsertContents(first);
    assert OkMembers(first) == [(key, u)];
    assert es[..|es| - 1] == first;
    FoldInsertStep(es);
    FindKeyFirst([(key, u)], key, 0);
    assert Insert([(key, u)], key, v) == [(key, v)];
  }

  /** Two methods of a path with one lower-case name, such as those two,
      give a methods object with one member, holding the operation registered
      last. */
  lemma MethodsObjectCollision(mm: MethodMap, x: Method, a: RegistryItem, y: Method, b: RegistryItem)
    requires mm == [(x, a), (y, b)]
    requires MethodKey(x) == MethodKey(y) && !ItemPanics(a) && !ItemPanics(b)
    ensures EndpointObject(b).Ok?
    ensures MethodsObject(mm) == Ok([(MethodKey(y), EndpointObject(b).value)])
  {
    var es := MethodEntries(mm);
    MethodEntriesOk(mm);
    assert es == [(MethodKey(y), Ok(es[0].1.value)), (MethodKey(y), Ok(es[1].1.value))];
    FoldInsertSameKey(es, MethodKey(y), es[0].1.value, es[1].1.value);
  }

  /** A `{name}` after literal text is left as it is. */
  lemma RewriteBraced(s: string, pre: string, name: string)
    requires ':' !in pre && forall i :: 0 <= i < |name| ==> IsNameChar(name[i])
    requires s == pre + "{" + name + "}"
    ensures RewritePath(s) == s
  {
    assert ':' !in name by {
      forall i | 0 <= i < |name|
        ensures name[i] != ':'
      {
        assert IsNameChar(name[i]);
      }
    }
    assert s + [] == s;
    RewriteLiteral(s, []);
  }

  /** A `:name` after literal text becomes `{name}`. */
  lemma RewriteColonName(s: string, pre: string, name: string)
    requires ':' !in pre && name != [] && forall i :: 0 <= i < |name| ==> IsNameChar(name[i])
    requires s == pre + ":" + name
    ensures RewritePath(s) == pre + "{" + name + "}"
  {
    var tail := ":" + name;
    assert s == pre + tail && tail + [] == tail;
    assert pre + ("{" + name + "}" + []) == pre + "{" + name + "}";
    RewritePlaceholder(name, []);
    RewriteLiteral(pre, tail);
  }

  /** Two paths with one template, such as those two, give a paths object
      with one member, holding the methods object of the path registered
      last. */
  lemma PathsObjectCollision(m: PathMap, p: string, ma: MethodMap, q: string, mb: MethodMap)
    requires m == [(p, ma), (q, mb)]
    requires RewritePath(p) == RewritePath(q) && !AnyItemPanics(m)
    ensures MethodsObject(mb).Ok?
    ensures PathsObject(m) == Ok([(RewritePath(q), JObject(MethodsObject(mb).value))])
  {
    var es := PathEntries(m);
    MethodsObjectPanics(ma);
    MethodsObjectPanics(mb);
    assert es == [(RewritePath(q), Ok(es[0].1.value)), (RewritePath(q), Ok(es[1].1.value))];
    FoldInsertSameKey(es, RewritePath(q), es[0].1.value, es[1].1.value);
  }

  /** A placeholder written `:name` and the same name written `{name}` after
      the same literal text, such as `/a/:x` and `/a/{x}`, are two paths a
      registry accepts, but they share one template in the document. */
  lemma RewriteCollision(pre: string, name: string)
    requires ':' !in pre && name != [] && forall i :: 0 <= i < |name| ==> IsNameChar(name[i])
    ensures pre + ":" + name != pre + "{" + name + "}"
    ensures RewritePath(pre + ":" + name) == RewritePath(pre + "{" + name + "}") == pre + "{" + name + "}"
  {
    assert (pre + ":" + name)[|pre|] == ':' && (pre + "{" + name + "}")[|pre|] == '{';
    RewriteColonName(pre + ":" + name, pre, name);
    RewriteBraced(pre + "{" + name + "}", pre, name);
  }

  const OpenApiVersion := "3.0.3"

  const Info := JObject([
    ("title", JString("Some API")),
    ("summary", JString("This is the Some API summary")),
    ("description", JString("This is the Some API description")),
    ("termsOfService", JString("http://example.test/terms/")),
    ("contact", JObject([
      ("name", JString("Some API Support")),
      ("url", JString("http://example.test")),
      ("email", JString("support@example.test"))])),
    ("version", JString("0.1.0")),
    ("license", JObject([("name", JString("Apache 2.0")), ("identifier", JString("Apache-2.0"))]))])

  const Servers := JArray([JObject([("url", JString("/")), ("description", JString("This server"))])])

  /** The whole document around the `paths` object. */
  function Document(errorPayloadSchema: Json, paths: Members): Json {
    JObject([
      ("openapi", JString(OpenApiVersion)),
      ("info", Info),
      ("servers", Servers),
      ("paths", JObject(paths)),
      ("components", JObject([("schemas", JObject([("ErrorPayload", errorPayloadSchema)]))]))])
  }

  /** `openapi_spec`. */
  function OpenApiSpec(errorPayloadSchema: Json, m: PathMap): Result<Json, Panic> {
    match PathsObject(m)
    case Err(p) => Err(p)
    case Ok(ps) => Ok(Document(errorPayloadSchema, ps))
  }

  /** The fixed parts of the document: version 3.0.3 and the shared error
      payload schema under `components.schemas.ErrorPayload`. */
  lemma DocumentSpec(errorPayloadSchema: Json, paths: Members)
    ensures var doc := Document(errorPayloadSchema, paths);
      && Get(doc, "openapi") == JString("3.0.3")
      && Get(Get(Get(doc, "components"), "schemas"), "ErrorPayload") == errorPayloadSchema
      && Get(doc, "paths") == JObject(paths)
  {
    var doc := Document(errorPayloadSchema, paths);
    GetFirst(doc.members, "openapi", 0);
    GetFirst(doc.members, "paths", 3);
    GetFirst(doc.members, "components", 4);
    GetFirst([("schemas", JObject([("ErrorPayload", errorPayloadSchema)]))], "schemas", 0);
    GetFirst([("ErrorPayload", errorPayloadSchema)], "ErrorPayload", 0);
  }
}
