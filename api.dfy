/** `src/api/mod.rs`: `registry()`, the registry of the example API: built
    with `ApiErrorPayload` as the error envelope, then the list endpoint and
    the get endpoint registered in that order. */
module Api {
  import opened Wrappers
  import opened Http
  import opened Schema
  import opened ApiErrors
  import opened RegistryItems
  import opened Registries
  import opened Router
  import opened UsersList
  import opened UsersGet

  /** The item of `users::list::E`. */
  function ListItem(list: ListForeign): (item: RegistryItem)
    ensures item.path == "/users" && item.httpMethod == GET
  {
    var e := ListEndpoint(list);
    MakeItemDescribes(e);
    MakeItem(e)
  }

  /** The item of `users::get::E`. */
  function GetItem(get: GetForeign): (item: RegistryItem)
    ensures item.path == "/users/:id" && item.httpMethod == GET
  {
    var e := GetEndpoint(get);
    MakeItemDescribes(e);
    MakeItem(e)
  }

  /** The table `registry()` ends with: two paths in registration order, each
      with its one `GET` endpoint. */
  function ApiTable(list: ListForeign, get: GetForeign): PathMap {
    var a := ListItem(list);
    var b := GetItem(get);
    [(a.path, [(a.httpMethod, a)]), (b.path, [(b.httpMethod, b)])]
  }

  lemma DistinctPaths()
    ensures "/users" != "/users/:id"
  {
    assert |"/users"| != |"/users/:id"|;
  }

  /** `registry()`. The two routes differ, so neither registration panics;
      `panic` would hold the first panic otherwise. */
  method BuildRegistry(errorPayload: Derived<ApiErrorPayload>, list: ListForeign, get: GetForeign)
    returns (registry: Registry, panic: Option<Panic>)
    ensures fresh(registry) && registry.Valid()
    ensures panic.None?
    ensures registry.errorPayloadSchema == errorPayload.jsonSchema(ErrorPayloadSchemaSettings)
    ensures registry.pathMap == ApiTable(list, get)
  {
    var a := ListItem(list);
    var b := GetItem(get);
    DistinctPaths();
    InsertIntoEmpty(a);
    InsertSecondPath(a, b);
    registry := new Registry(errorPayload);
    panic := registry.Register(ListEndpoint(list));
    if panic.Some? {
      return;
    }
    assert registry.pathMap == [(a.path, [(a.httpMethod, a)])];
    panic := registry.Register(GetEndpoint(get));
  }

  /** The table is well formed and lists `/users` before `/users/:id`. */
  lemma ApiTableShape(list: ListForeign, get: GetForeign)
    ensures TableValid(ApiTable(list, get))
    ensures Paths(ApiTable(list, get)) == ["/users", "/users/:id"]
  {
    DistinctPaths();
    TwoPathValid(ListItem(list), GetItem(get));
  }

  /** Who answers what: `GET /users` is the list endpoint, `GET /users/:id`
      the get endpoint, and nothing else is registered. */
  lemma ApiTableRoutes(list: ListForeign, get: GetForeign, path: string, httpMethod: Method)
    ensures Lookup(ApiTable(list, get), path, httpMethod)
         == if path == "/users" && httpMethod == GET then Some(ListItem(list))
            else if path == "/users/:id" && httpMethod == GET then Some(GetItem(get))
            else None
  {
    DistinctPaths();
    TwoPathLookups(ListItem(list), GetItem(get), path, httpMethod);
  }

  /** `axum_router()` on this registry builds: both methods are `GET` and both
      paths start with `/`, so neither route panics. */
  lemma ApiRouterBuilds(list: ListForeign, get: GetForeign)
    ensures RoutesOf(ApiTable(list, get)).Ok?
    ensures var rs := RoutesOf(ApiTable(list, get)).value;
      |rs| == 2 && rs[0].path == "/users" && rs[1].path == "/users/:id"
  {
    TwoGetRoutes("/users", ListItem(list), "/users/:id", GetItem(get));
  }
}
