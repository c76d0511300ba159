/** The data half of `src/registry.rs`: the per-slot schema settings and
    shape options, the `RegistryItem` an endpoint is registered as, and the
    two-level insertion-ordered table `path => method => item` (an `IndexMap`
    of `IndexMap`s, modelled as sequences of entries with distinct keys). */
module RegistryItems {
  import opened Wrappers
  import opened Entries
  import opened JsonValues
  import opened Http
  import opened Void
  import opened Schema
  import opened ApiErrors
  import opened Endpoints

  // ---------------------------------------------------------------------
  // Settings and options

  const ParamsSchemaSettings := SchemaSettings(ForDeserialize, false, false, true)
  const QuerySchemaSettings := SchemaSettings(ForDeserialize, true, true, true)
  const PayloadSchemaSettings := SchemaSettings(ForDeserialize, true, true, true)
  const OutputSchemaSettings := SchemaSettings(ForSerialize, true, true, true)
  /** The settings `Registry::new` uses for the error payload. */
  const ErrorPayloadSchemaSettings := SchemaSettings(ForSerialize, true, true, true)

  /** `shape_params_options`: neither null nor undefined, optional fields marked. */
  const ShapeParamsOptions := ShapeOptions(DeserializeShape, false, false, true)
  /** `shape_query_options`: undefined but not null. */
  const ShapeQueryOptions := ShapeOptions(DeserializeShape, false, true, true)
  /** `shape_payload_options`: null and undefined. */
  const ShapePayloadOptions := ShapeOptions(DeserializeShape, true, true, true)
  /** `shape_output_options`: null, but no undefined and no optional marks. */
  const ShapeOutputOptions := ShapeOptions(SerializeShape, true, false, false)

  // ---------------------------------------------------------------------
  // Items

  /** `RegistryItem`: the route, the schemas and shapes of the non-void slots,
      those of the output, and the type-erased handler. */
  datatype RegistryItem = RegistryItem(
    path: string,
    httpMethod: Method,
    params: Option<Json>,
    query: Option<Json>,
    payload: Option<Json>,
    output: Json,
    paramsShape: Option<Shape>,
    queryShape: Option<Shape>,
    payloadShape: Option<Shape>,
    outputShape: Shape,
    handler: Request -> Result<Response, Panic>)

  /** A slot's schema under its settings, absent for a void slot. */
  function SlotSchema<T>(d: TypeDesc<T>, settings: SchemaSettings): (r: Option<Json>)
    ensures r.None? <==> IsVoid(d.info)
    ensures r.Some? ==> r.value == d.derived.jsonSchema(settings)
  {
    if IsVoid(d.info) then None else Some(d.derived.jsonSchema(settings))
  }

  /** A slot's shape under its options, absent for a void slot. */
  function SlotShape<T>(d: TypeDesc<T>, options: ShapeOptions): (r: Option<Shape>)
    ensures r.None? <==> IsVoid(d.info)
    ensures r.Some? ==> r.value == d.derived.shape(options)
  {
    if IsVoid(d.info) then None else Some(d.derived.shape(options))
  }

  /** The item `register` builds for an endpoint (source lines 153-232); its
      handler is `RegistryHandlerItem`, which forwards to `Endpoint::handle`. */
  function MakeItem<C, P, Q, B, O>(e: Endpoint<C, P, Q, B, O>): (item: RegistryItem)
    requires SlotsWellFormed(e)
  {
    RegistryItem(
      e.path, e.httpMethod,
      SlotSchema(e.params, ParamsSchemaSettings),
      SlotSchema(e.query, QuerySchemaSettings),
      SlotSchema(e.payload, PayloadSchemaSettings),
      e.output.derived.jsonSchema(OutputSchemaSettings),
      SlotShape(e.params, ShapeParamsOptions),
      SlotShape(e.query, ShapeQueryOptions),
      SlotShape(e.payload, ShapePayloadOptions),
      e.output.derived.shape(ShapeOutputOptions),
      req => Handle(e, req))
  }

  /** The item describes its endpoint: the same route, a schema and a shape
      exactly for the non-void slots, each under its own slot's settings, and
      a handler answering every request as the endpoint's pipeline does. */
  lemma MakeItemDescribes<C, P, Q, B, O>(e: Endpoint<C, P, Q, B, O>)
    requires SlotsWellFormed(e)
    ensures var item := MakeItem(e);
      && item.path == e.path && item.httpMethod == e.httpMethod
      && (item.params.None? <==> IsVoid(e.params.info))
      && (item.query.None? <==> IsVoid(e.query.info))
      && (item.payload.None? <==> IsVoid(e.payload.info))
      && (item.paramsShape.None? <==> IsVoid(e.params.info))
      && (item.queryShape.None? <==> IsVoid(e.query.info))
      && (item.payloadShape.None? <==> IsVoid(e.payload.info))
      && (item.params.Some? ==> item.params.value == e.params.derived.jsonSchema(ParamsSchemaSettings))
      && (item.query.Some? ==> item.query.value == e.query.derived.jsonSchema(QuerySchemaSettings))
      && (item.payload.Some? ==> item.payload.value == e.payload.derived.jsonSchema(PayloadSchemaSettings))
      && (item.paramsShape.Some? ==> item.paramsShape.value == e.params.derived.shape(ShapeParamsOptions))
      && (item.queryShape.Some? ==> item.queryShape.value == e.query.derived.shape(ShapeQueryOptions))
      && (item.payloadShape.Some? ==> item.payloadShape.value == e.payload.derived.shape(ShapePayloadOptions))
      && item.output == e.output.derived.jsonSchema(OutputSchemaSettings)
      && item.outputShape == e.output.derived.shape(ShapeOutputOptions)
      && forall req :: item.handler(req) == Handle(e, req)
  {
  }

  // ---------------------------------------------------------------------
  // The table

  type MethodMap = seq<(Method, RegistryItem)>
  type PathMap = seq<(string, MethodMap)>

  function Methods(mm: MethodMap): seq<Method> {
    seq(|mm|, i requires 0 <= i < |mm| => mm[i].0)
  }

  function Paths(m: PathMap): seq<string> {
    seq(|m|, i requires 0 <= i < |m| => m[i].0)
  }

  /** Keys are distinct, and each item sits under its own path and method. */
  predicate MethodMapValid(path: string, mm: MethodMap) {
    && (forall i, j :: 0 <= i < j < |mm| ==> mm[i].0 != mm[j].0)
    && (forall i :: 0 <= i < |mm| ==> mm[i].1.path == path && mm[i].1.httpMethod == mm[i].0)
  }

  predicate TableValid(m: PathMap) {
    && (forall i, j :: 0 <= i < j < |m| ==> m[i].0 != m[j].0)
    && (forall i :: 0 <= i < |m| ==> MethodMapValid(m[i].0, m[i].1))
  }

  /** The item registered for a path and method, if any. */
  function Lookup(m: PathMap, path: string, httpMethod: Method): Option<RegistryItem> {
    match FindKey(m, path)
    case None => None
    case Some(k) =>
      match FindKey(m[k].1, httpMethod)
      case None => None
      case Some(j) => Some(m[k].1[j].1)
  }

  predicate Contains(m: PathMap, path: string, httpMethod: Method) {
    Lookup(m, path, httpMethod).Some?
  }

  lemma FindPathUnique(m: PathMap, path: string, k: nat)
    requires TableValid(m) && k < |m| && m[k].0 == path
    ensures FindKey(m, path) == Some(k)
  {
  }

  lemma FindMethodUnique(mm: MethodMap, path: string, httpMethod: Method, j: nat)
    requires MethodMapValid(path, mm) && j < |mm| && mm[j].0 == httpMethod
    ensures FindKey(mm, httpMethod) == Some(j)
  {
  }

  /** `map.entry(path).or_default()` then a vacant `entry(method).insert(item)`:
      a new path goes to the end of the table, a new method to the end of its
      path's map. */
  function InsertItem(m: PathMap, item: RegistryItem): PathMap {
    match FindKey(m, item.path)
    case None => m + [(item.path, [(item.httpMethod, item)])]
    case Some(k) => m[k := (item.path, m[k].1 + [(item.httpMethod, item)])]
  }

  /** Registering an item keeps the table well formed. */
  lemma InsertKeepsValid(m: PathMap, item: RegistryItem)
    requires TableValid(m) && !Contains(m, item.path, item.httpMethod)
    ensures TableValid(InsertItem(m, item))
  {
    match FindKey(m, item.path)
    case None =>
    case Some(k) =>
      var mm := m[k].1 + [(item.httpMethod, item)];
      assert FindKey(m[k].1, item.httpMethod).None?;
      assert MethodMapValid(item.path, mm);
  }

  /** After the insertion the item is found under its path and method. */
  lemma LookupInsertSame(m: PathMap, item: RegistryItem)
    requires TableValid(m) && !Contains(m, item.path, item.httpMethod)
    ensures Lookup(InsertItem(m, item), item.path, item.httpMethod) == Some(item)
  {
    var m' := InsertItem(m, item);
    InsertKeepsValid(m, item);
    match FindKey(m, item.path)
    case None =>
      FindPathUnique(m', item.path, |m|);
      FindMethodUnique(m'[|m|].1, item.path, item.httpMethod, 0);
    case Some(k) =>
      FindPathUnique(m', item.path, k);
      FindMethodUnique(m'[k].1, item.path, item.httpMethod, |m[k].1|);
  }

  lemma LookupInsertOtherPath(m: PathMap, item: RegistryItem, path: string, httpMethod: Method)
    requires TableValid(m) && !Contains(m, item.path, item.httpMethod)
    requires path != item.path
    ensures Lookup(InsertItem(m, item), path, httpMethod) == Lookup(m, path, httpMethod)
  {
    var m' := InsertItem(m, item);
    InsertKeepsValid(m, item);
    match FindKey(m, path)
    case None =>
      assert forall i :: 0 <= i < |m'| ==> m'[i].0 != path;
    case Some(k) =>
      FindPathUnique(m', path, k);
      assert m'[k] == m[k];
  }

  lemma LookupInsertOtherMethod(m: PathMap, item: RegistryItem, httpMethod: Method)
    requires TableValid(m) && !Contains(m, item.path, item.httpMethod)
    requires httpMethod != item.httpMethod
    ensures Lookup(InsertItem(m, item), item.path, httpMethod) == Lookup(m, item.path, httpMethod)
  {
    var m' := InsertItem(m, item);
    InsertKeepsValid(m, item);
    var x := (item.httpMethod, item);
    match FindKey(m, item.path)
    case None =>
      LookupNewPath(m, item, httpMethod);
    case Some(k) =>
      FindPathUnique(m', item.path, k);
      assert m'[k].1 == m[k].1 + [x];
      FindKeyAppendOther(m[k].1, x, httpMethod);
  }

  lemma LookupNewPath(m: PathMap, item: RegistryItem, httpMethod: Method)
    requires TableValid(m) && FindKey(m, item.path).None?
    requires httpMethod != item.httpMethod
    ensures Lookup(InsertItem(m, item), item.path, httpMethod).None?
    ensures Lookup(m, item.path, httpMethod).None?
  {
    var m' := m + [(item.path, [(item.httpMethod, item)])];
    assert InsertItem(m, item) == m';
    FindKeyAppendNew(m, (item.path, [(item.httpMethod, item)]));
    assert FindKey(m'[|m|].1, httpMethod).None?;
  }

  /** Every other path and method finds what it found before. */
  lemma LookupInsertOther(m: PathMap, item: RegistryItem, path: string, httpMethod: Method)
    requires TableValid(m) && !Contains(m, item.path, item.httpMethod)
    requires path != item.path || httpMethod != item.httpMethod
    ensures Lookup(InsertItem(m, item), path, httpMethod) == Lookup(m, path, httpMethod)
  {
    if path != item.path {
      LookupInsertOtherPath(m, item, path, httpMethod);
    } else {
      LookupInsertOtherMethod(m, item, httpMethod);
    }
  }

  /** The order of paths is kept: a new path is appended, a known one stays
      where it is; the methods of a path keep their order likewise. */
  lemma InsertOrder(m: PathMap, item: RegistryItem)
    requires TableValid(m) && !Contains(m, item.path, item.httpMethod)
    ensures FindKey(m, item.path).None? ==> Paths(InsertItem(m, item)) == Paths(m) + [item.path]
    ensures FindKey(m, item.path).Some? ==>
      && Paths(InsertItem(m, item)) == Paths(m)
      && var k := FindKey(m, item.path).value;
         Methods(InsertItem(m, item)[k].1) == Methods(m[k].1) + [item.httpMethod]
  {
  }

  /** The first registration opens the table with the item's path. */
  lemma InsertIntoEmpty(item: RegistryItem)
    ensures InsertItem([], item) == [(item.path, [(item.httpMethod, item)])]
    ensures TableValid(InsertItem([], item))
  {
  }

  /** An item under a second path is not found in a one-path table, and is
      appended after it. */
  lemma InsertSecondPath(a: RegistryItem, b: RegistryItem)
    requires a.path != b.path
    ensures !Contains([(a.path, [(a.httpMethod, a)])], b.path, b.httpMethod)
    ensures InsertItem([(a.path, [(a.httpMethod, a)])], b)
         == [(a.path, [(a.httpMethod, a)]), (b.path, [(b.httpMethod, b)])]
  {
    var t := [(a.path, [(a.httpMethod, a)])];
    assert FindKey(t[..0], b.path) == None;
    assert FindKey(t, b.path) == None;
  }

  /** A table of two paths with one item each answers exactly those two
      routes. */
  lemma TwoPathLookups(a: RegistryItem, b: RegistryItem, path: string, httpMethod: Method)
    requires a.path != b.path
    ensures var t := [(a.path, [(a.httpMethod, a)]), (b.path, [(b.httpMethod, b)])];
      Lookup(t, path, httpMethod)
      == if path == a.path && httpMethod == a.httpMethod then Some(a)
         else if path == b.path && httpMethod == b.httpMethod then Some(b)
         else None
  {
    var t := [(a.path, [(a.httpMethod, a)]), (b.path, [(b.httpMethod, b)])];
    assert t[..1] == [(a.path, [(a.httpMethod, a)])];
    assert t[..1][..0] == [];
    if path == b.path {
      assert FindKey(t, path) == Some(1);
    } else if path == a.path {
      assert FindKey(t, path) == Some(0);
    } else {
      assert FindKey(t, path) == None;
    }
  }

  lemma TwoPathValid(a: RegistryItem, b: RegistryItem)
    requires a.path != b.path
    ensures var t := [(a.path, [(a.httpMethod, a)]), (b.path, [(b.httpMethod, b)])];
      TableValid(t) && Paths(t) == [a.path, b.path]
  {
  }

  /** The error `register` panics with on a duplicate. */
  function DuplicatePanic(path: string, httpMethod: Method): Panic {
    Panic("duplicate endpoint registered for path `" + path + "` and method `" + AsStr(httpMethod) + "`")
  }
}
