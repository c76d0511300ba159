/** `Registry` (src/registry.rs:102-520): the table of registered endpoints
    and the three things built from it, the TypeScript definitions, the
    OpenAPI document and the router. Each builder walks the table with the
    source's loops and is proved to produce its specification function. */
module Registries {
  import opened Wrappers
  import opened Entries
  import opened JsonValues
  import opened Http
  import opened Schema
  import opened Endpoints
  import opened RegistryItems
  import opened OpenApi
  import opened TsDefinitions
  import opened Router

  class Registry {
    /** The error payload's schema and shape, fixed by `new`. */
    const errorPayloadSchema: Json
    const errorPayloadShape: Shape
    /** `map`: path => method => item, in registration order. */
    var pathMap: PathMap

    ghost predicate Valid()
      reads this
    {
      TableValid(pathMap)
    }

    /** `Registry::new::<ErrorPayload>()`: the error payload described for
        serialization, and an empty table. */
    constructor <E>(errorPayload: Derived<E>)
      ensures Valid()
      ensures errorPayloadSchema == errorPayload.jsonSchema(ErrorPayloadSchemaSettings)
      ensures errorPayloadShape == errorPayload.shape(ShapeOutputOptions)
      ensures pathMap == []
    {
      errorPayloadSchema := errorPayload.jsonSchema(ErrorPayloadSchemaSettings);
      errorPayloadShape := errorPayload.shape(ShapeOutputOptions);
      pathMap := [];
    }

    /** `register`: a second endpoint for the same path and method panics and
        leaves the table as it was; otherwise the endpoint's item is added
        under its path and method. */
    method Register<C, P, Q, B, O>(e: Endpoint<C, P, Q, B, O>) returns (panic: Option<Panic>)
      requires Valid() && SlotsWellFormed(e) && ValidMethod(e.httpMethod)
      modifies this
      ensures Valid()
      ensures panic.Some? <==> old(Contains(pathMap, e.path, e.httpMethod))
      ensures panic.Some? ==> panic.value == DuplicatePanic(e.path, e.httpMethod) && pathMap == old(pathMap)
      ensures panic.None? ==> pathMap == InsertItem(old(pathMap), MakeItem(e))
    {
      panic := None;
      match FindKey(pathMap, e.path)
      case None =>
        var item := MakeItem(e);
        InsertKeepsValid(pathMap, item);
        pathMap := pathMap + [(e.path, [(e.httpMethod, item)])];
      case Some(k) =>
        if FindKey(pathMap[k].1, e.httpMethod).Some? {
          panic := Some(DuplicatePanic(e.path, e.httpMethod));
        } else {
          var item := MakeItem(e);
          InsertKeepsValid(pathMap, item);
          pathMap := pathMap[k := (e.path, pathMap[k].1 + [(e.httpMethod, item)])];
        }
    }

    /** `ts_definitions`: the header, one block per path with one line per
        method, and the footer. */
    method TsDefinitions(tsMethod: string) returns (def: string)
      ensures def == TsDefinitionsText(tsMethod, errorPayloadShape.typescript, pathMap)
    {
      var body := WritePathBlocks(pathMap);
      def := Header(tsMethod, errorPayloadShape.typescript) + body + Footer;
    }

    /** `openapi_spec`: the document, or the panic of the first item whose
        parameter schemas have no `properties` object. */
    method OpenApiSpec() returns (r: Result<Json, Panic>)
      ensures r == OpenApi.OpenApiSpec(errorPayloadSchema, pathMap)
    {
      var entries := PathEntries(pathMap);
      var paths: Members := [];
      var i := 0;
      while i < |pathMap|
        invariant 0 <= i <= |pathMap|
        invariant FoldInsert(entries[..i]) == Ok(paths)
      {
        var path := RewritePath(pathMap[i].0);
        var methods := DescribeMethods(pathMap[i].1);
        assert entries[..i + 1][..i] == entries[..i];
        if methods.Err? {
          FoldInsertErrExtends(entries, i + 1);
          return Err(methods.error);
        }
        paths := Insert(paths, path, JObject(methods.value));
        i := i + 1;
      }
      assert entries[..i] == entries;
      r := Ok(Document(errorPayloadSchema, paths));
    }

    /** `axum_router`: one route per path, one handler per method under its
        filter; an extension method panics. */
    method AxumRouter() returns (r: Result<seq<Route>, Panic>)
      ensures r == RoutesOf(pathMap)
    {
      var routes: seq<Route> := [];
      var i := 0;
      while i < |pathMap|
        invariant 0 <= i <= |pathMap|
        invariant RoutesOf(pathMap[..i]) == Ok(routes)
      {
        var methodRouter := BuildMethodRouter(pathMap[i].1);
        assert pathMap[..i + 1][..i] == pathMap[..i];
        if methodRouter.Err? {
          RoutesErrExtends(pathMap, i + 1);
          return Err(methodRouter.error);
        }
        var badPath := PathCheck(pathMap[i].0);
        if badPath.Some? {
          RoutesErrExtends(pathMap, i + 1);
          return Err(badPath.value);
        }
        routes := routes + [Route(pathMap[i].0, methodRouter.value)];
        i := i + 1;
      }
      assert pathMap[..i] == pathMap;
      r := Ok(routes);
    }
  }

  /** The blocks of all paths (the outer loop of `ts_definitions`). */
  method WritePathBlocks(m: PathMap) returns (body: string)
    ensures body == PathBlocks(m)
  {
    var blocks := Blocks(m);
    body := "";
    var i := 0;
    while i < |m|
      invariant 0 <= i <= |m|
      invariant body == Join(blocks[..i])
    {
      var block := WritePathBlock(m[i].0, m[i].1);
      assert block == blocks[i];
      JoinPrefix(blocks, i);
      body := body + block;
      i := i + 1;
    }
    assert blocks[..i] == blocks;
  }

  /** The block of one path (the outer loop body of `ts_definitions`). */
  method WritePathBlock(path: string, methods: MethodMap) returns (block: string)
    ensures block == PathBlock(path, methods)
  {
    var quotedPath := Quote(path);
    var lines := Lines(quotedPath, methods);
    var text := "";
    var j := 0;
    while j < |methods|
      invariant 0 <= j <= |methods|
      invariant text == Join(lines[..j])
    {
      var line := MethodLine(quotedPath, methods[j].0, methods[j].1);
      assert line == lines[j];
      JoinPrefix(lines, j);
      text := text + line;
      j := j + 1;
    }
    assert lines[..j] == lines;
    block := BlockOpen(quotedPath) + text + BlockClose;
  }

  /** The `methods` object of one path (the inner loop of `openapi_spec`). */
  method DescribeMethods(methodsMap: MethodMap) returns (r: Result<Members, Panic>)
    ensures r == MethodsObject(methodsMap)
  {
    var entries := MethodEntries(methodsMap);
    var methods: Members := [];
    var j := 0;
    while j < |methodsMap|
      invariant 0 <= j <= |methodsMap|
      invariant FoldInsert(entries[..j]) == Ok(methods)
    {
      var endpoint := DescribeItem(methodsMap[j].1);
      assert entries[..j + 1][..j] == entries[..j];
      if endpoint.Err? {
        FoldInsertErrExtends(entries, j + 1);
        return Err(endpoint.error);
      }
      methods := Insert(methods, MethodKey(methodsMap[j].0), endpoint.value);
      j := j + 1;
    }
    assert entries[..j] == entries;
    r := Ok(methods);
  }

  /** The method router of one path (the inner loop of `axum_router`). */
  method BuildMethodRouter(methodsMap: MethodMap) returns (r: Result<MethodRouter, Panic>)
    ensures r == MethodRouterOf(methodsMap)
  {
    var methodRouter: MethodRouter := [];
    var j := 0;
    while j < |methodsMap|
      invariant 0 <= j <= |methodsMap|
      invariant MethodRouterOf(methodsMap[..j]) == Ok(methodRouter)
    {
      var filter := FilterOf(methodsMap[j].0);
      assert methodsMap[..j + 1][..j] == methodsMap[..j];
      if filter.Err? {
        MethodRouterErrExtends(methodsMap, j + 1);
        return Err(filter.error);
      }
      methodRouter := methodRouter + [(filter.value, methodsMap[j].1.handler)];
      j := j + 1;
    }
    assert methodsMap[..j] == methodsMap;
    r := Ok(methodRouter);
  }

  /** The operation object of one item (the body of the inner loop of
      `openapi_spec`). */
  method DescribeItem(item: RegistryItem) returns (r: Result<Json, Panic>)
    ensures r == EndpointObject(item)
  {
    var fromParams: seq<Json> := [];
    if item.params.Some? {
      var value := item.params.value;
      if !Get(value, "properties").JObject? {
        return Err(ParamsPropertiesPanic);
      }
      fromParams := CollectPathParameters(Get(value, "properties").members);
    }
    assert PathParameterList(item) == Ok(fromParams);
    var fromQuery: seq<Json> := [];
    if item.query.Some? {
      var value := item.query.value;
      if !Get(value, "properties").JObject? {
        return Err(QueryPropertiesPanic);
      }
      fromQuery := CollectQueryParameters(Get(value, "properties").members);
    }
    assert QueryParameterList(item) == Ok(fromQuery);
    var parameters := fromParams + fromQuery;
    var endpoint: Members := [];
    if parameters != [] {
      endpoint := Insert(endpoint, "parameters", JArray(parameters));
    }
    if item.payload.Some? {
      endpoint := Insert(endpoint, "requestBody", RequestBody(item.payload.value));
    }
    endpoint := Insert(endpoint, "responses", ResponsesObject(item.output));
    r := Ok(JObject(endpoint));
  }

  /** One `in: path` parameter per property, in order. */
  method CollectPathParameters(props: Members) returns (parameters: seq<Json>)
    ensures parameters == PathParameters(props)
  {
    parameters := [];
    var k := 0;
    while k < |props|
      invariant 0 <= k <= |props|
      invariant |parameters| == k
      invariant forall t :: 0 <= t < k ==> parameters[t] == PathParameter(props[t].0, props[t].1)
    {
      parameters := parameters + [PathParameter(props[k].0, props[k].1)];
      k := k + 1;
    }
  }

  /** One `in: query` parameter per property, in order. */
  method CollectQueryParameters(props: Members) returns (parameters: seq<Json>)
    ensures parameters == QueryParameters(props)
  {
    parameters := [];
    var k := 0;
    while k < |props|
      invariant 0 <= k <= |props|
      invariant |parameters| == k
      invariant forall t :: 0 <= t < k ==> parameters[t] == QueryParameter(props[t].0, props[t].1)
    {
      parameters := parameters + [QueryParameter(props[k].0, props[k].1)];
      k := k + 1;
    }
  }
}
