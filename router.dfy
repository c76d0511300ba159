/** `Registry::axum_router` (src/registry.rs): one route per registered path,
    each answering its registered methods through the items' handlers. The
    router is modelled by the table it is built from and a dispatch by route
    template and method filter; the loop that builds it is a method of
    `Registries.Registry`. */
module Router {
  import opened Wrappers
  import opened Entries
  import opened Http
  import opened RegistryItems

  /** `axum::routing::MethodFilter`: one flag per standard method. */
  datatype MethodFilter =
    | FilterHEAD | FilterGET | FilterPOST | FilterPUT | FilterPATCH
    | FilterDELETE | FilterOPTIONS | FilterCONNECT | FilterTRACE

  /** The filter of a method; an extension method panics. */
  function FilterOf(m: Method): (r: Result<MethodFilter, Panic>)
    ensures r.Err? <==> m.Extension?
  {
    match m
    case HEAD => Ok(FilterHEAD)
    case GET => Ok(FilterGET)
    case POST => Ok(FilterPOST)
    case PUT => Ok(FilterPUT)
    case PATCH => Ok(FilterPATCH)
    case DELETE => Ok(FilterDELETE)
    case OPTIONS => Ok(FilterOPTIONS)
    case CONNECT => Ok(FilterCONNECT)
    case TRACE => Ok(FilterTRACE)
    case Extension(t) => Err(Panic("unsupported method " + t))
  }

  /** Distinct standard methods get distinct filters. */
  lemma FilterOfInjective(m1: Method, m2: Method)
    requires FilterOf(m1).Ok? && FilterOf(m2).Ok? && FilterOf(m1) == FilterOf(m2)
    ensures m1 == m2
  {
  }

  type Handler = Request -> Result<Response, Panic>

  /** `MethodRouter`: the handlers registered with `on`, by filter. */
  type MethodRouter = seq<(MethodFilter, Handler)>

  /** `Router::route(path, method_router)`. */
  datatype Route = Route(path: string, methods: MethodRouter)

  /** The method router of one path, method after method; the first extension
      method panics. */
  function MethodRouterOf(mm: MethodMap): Result<MethodRouter, Panic> {
    if mm == [] then Ok([])
    else
      match MethodRouterOf(mm[..|mm| - 1])
      case Err(p) => Err(p)
      case Ok(mr) =>
        match FilterOf(mm[|mm| - 1].0)
        case Err(p) => Err(p)
        case Ok(f) => Ok(mr + [(f, mm[|mm| - 1].1.handler)])
  }

  /** The check `Router::route` of axum 0.7 makes of a path before it adds
      the route: a path must start with `/`, and an empty one is told to use
      `/` for the root. */
  function PathCheck(path: string): (r: Option<Panic>)
    ensures r.None? <==> |path| > 0 && path[0] == '/'
  {
    if path == [] then Some(Panic("Paths must start with a `/`. Use \"/\" for root routes"))
    else if path[0] != '/' then Some(Panic("Paths must start with a `/`"))
    else None
  }

  /** The router, path after path: each path's method router is built first,
      then `Router::route` checks the path. */
  function RoutesOf(m: PathMap): Result<seq<Route>, Panic> {
    if m == [] then Ok([])
    else
      match RoutesOf(m[..|m| - 1])
      case Err(p) => Err(p)
      case Ok(rs) =>
        match MethodRouterOf(m[|m| - 1].1)
        case Err(p) => Err(p)
        case Ok(mr) =>
          match PathCheck(m[|m| - 1].0)
          case Some(p) => Err(p)
          case None => Ok(rs + [Route(m[|m| - 1].0, mr)])
  }

  /** Once a prefix of a path's methods panics, building its method router
      panics the same way. */
  lemma {:induction false} MethodRouterErrExtends(mm: MethodMap, n: nat)
    requires n <= |mm| && MethodRouterOf(mm[..n]).Err?
    ensures MethodRouterOf(mm) == MethodRouterOf(mm[..n])
    decreases |mm|
  {
    if n == |mm| {
      assert mm[..n] == mm;
    } else {
      var init := mm[..|mm| - 1];
      assert init[..n] == mm[..n];
      MethodRouterErrExtends(init, n);
    }
  }

  /** Once a prefix of the paths panics, building the router panics the same
      way. */
  lemma {:induction false} RoutesErrExtends(m: PathMap, n: nat)
    requires n <= |m| && RoutesOf(m[..n]).Err?
    ensures RoutesOf(m) == RoutesOf(m[..n])
    decreases |m|
  {
    if n == |m| {
      assert m[..n] == m;
    } else {
      var init := m[..|m| - 1];
      assert init[..n] == m[..n];
      RoutesErrExtends(init, n);
    }
  }

  /** Some registered method is not one of the nine standard ones. */
  predicate AnyExtension(m: PathMap) {
    exists i, j :: 0 <= i < |m| && 0 <= j < |m[i].1| && m[i].1[j].0.Extension?
  }

  /** Some registered path does not start with `/`. */
  predicate AnyBadPath(m: PathMap) {
    exists i :: 0 <= i < |m| && PathCheck(m[i].0).Some?
  }

  /** The method router of a path that builds has one handler per method, in
      order, each under the filter of its method. */
  lemma {:induction false} MethodRouterOfSpec(mm: MethodMap)
    ensures MethodRouterOf(mm).Err? <==> exists j :: 0 <= j < |mm| && mm[j].0.Extension?
    ensures MethodRouterOf(mm).Ok? ==>
      && |MethodRouterOf(mm).value| == |mm|
      && forall j :: 0 <= j < |mm| ==>
           MethodRouterOf(mm).value[j] == (FilterOf(mm[j].0).value, mm[j].1.handler)
    decreases |mm|
  {
    if mm != [] {
      var init := mm[..|mm| - 1];
      MethodRouterOfSpec(init);
      assert forall j :: 0 <= j < |init| ==> init[j] == mm[j];
    }
  }

  /** Building the router panics exactly when some registered method is an
      extension method or some path does not start with `/`. */
  lemma {:induction false} RoutesOfErr(m: PathMap)
    ensures RoutesOf(m).Err? <==> AnyExtension(m) || AnyBadPath(m)
    decreases |m|
  {
    if m != [] {
      var init := m[..|m| - 1];
      RoutesOfErr(init);
      MethodRouterOfSpec(m[|m| - 1].1);
      assert forall i :: 0 <= i < |init| ==> init[i] == m[i];
      if AnyExtension(m) {
        var i, j :| 0 <= i < |m| && 0 <= j < |m[i].1| && m[i].1[j].0.Extension?;
        if i < |init| {
          assert init[i].1[j].0.Extension?;
        }
      }
      if AnyBadPath(m) {
        var i :| 0 <= i < |m| && PathCheck(m[i].0).Some?;
        if i < |init| {
          assert PathCheck(init[i].0).Some?;
        }
      }
    }
  }

  /** A router that builds has one route per path, in order, each with the
      method router of its path. */
  lemma {:induction false} RoutesOfRoutes(m: PathMap)
    ensures RoutesOf(m).Ok? ==>
      && |RoutesOf(m).value| == |m|
      && forall i :: 0 <= i < |m| ==>
           && MethodRouterOf(m[i].1).Ok?
           && RoutesOf(m).value[i] == Route(m[i].0, MethodRouterOf(m[i].1).value)
    decreases |m|
  {
    if m != [] && RoutesOf(m).Ok? {
      var init := m[..|m| - 1];
      RoutesOfRoutes(init);
      assert forall i :: 0 <= i < |init| ==> init[i] == m[i];
    }
  }

  /** Building the router panics exactly when some registered method is an
      extension method or some path does not start with `/`; otherwise there
      is one route per path, in order. */
  lemma RoutesOfSpec(m: PathMap)
    ensures RoutesOf(m).Err? <==> AnyExtension(m) || AnyBadPath(m)
    ensures RoutesOf(m).Ok? ==>
      && |RoutesOf(m).value| == |m|
      && forall i :: 0 <= i < |m| ==>
           && MethodRouterOf(m[i].1).Ok?
           && RoutesOf(m).value[i] == Route(m[i].0, MethodRouterOf(m[i].1).value)
  {
    RoutesOfErr(m);
    RoutesOfRoutes(m);
  }

  /** Two paths, each with one `GET` endpoint and each starting with `/`,
      give a router of two routes in that order. */
  lemma TwoGetRoutes(p1: string, a: RegistryItem, p2: string, b: RegistryItem)
    requires |p1| > 0 && p1[0] == '/' && |p2| > 0 && p2[0] == '/'
    ensures var m := [(p1, [(GET, a)]), (p2, [(GET, b)])];
      && RoutesOf(m).Ok?
      && |RoutesOf(m).value| == 2 && RoutesOf(m).value[0].path == p1 && RoutesOf(m).value[1].path == p2
  {
    var m := [(p1, [(GET, a)]), (p2, [(GET, b)])];
    RoutesOfSpec(m);
    assert !AnyExtension(m);
    assert !AnyBadPath(m);
  }

  /** What the router does with a request for a route template and a method. */
  datatype Dispatch = Found(handler: Handler) | MethodNotAllowed | NotFound

  function FindRoute(rs: seq<Route>, path: string): (r: Option<nat>)
    ensures r.Some? ==> r.value < |rs| && rs[r.value].path == path
    ensures r.None? ==> forall i :: 0 <= i < |rs| ==> rs[i].path != path
  {
    if rs == [] then None
    else if rs[|rs| - 1].path == path then Some(|rs| - 1)
    else FindRoute(rs[..|rs| - 1], path)
  }

  function DispatchOf(rs: seq<Route>, path: string, m: Method): Dispatch {
    match FindRoute(rs, path)
    case None => NotFound
    case Some(i) =>
      match FilterOf(m)
      case Err(_) => MethodNotAllowed
      case Ok(f) =>
        match FindKey(rs[i].methods, f)
        case None => MethodNotAllowed
        case Some(j) => Found(rs[i].methods[j].1)
  }

  lemma FindPathRoute(m: PathMap, rs: seq<Route>, path: string)
    requires TableValid(m) && RoutesOf(m) == Ok(rs)
    ensures FindRoute(rs, path) == FindKey(m, path)
  {
    RoutesOfSpec(m);
    match FindRoute(rs, path)
    case None =>
      assert forall i :: 0 <= i < |m| ==> rs[i].path == m[i].0;
    case Some(k) =>
      FindPathUnique(m, path, k);
  }

  lemma FindMethodFilter(path: string, mm: MethodMap, mr: MethodRouter, hm: Method)
    requires MethodMapValid(path, mm) && MethodRouterOf(mm) == Ok(mr) && !hm.Extension?
    ensures FindKey(mm, hm).Some? <==> FindKey(mr, FilterOf(hm).value).Some?
    ensures FindKey(mm, hm).Some? ==>
      mr[FindKey(mr, FilterOf(hm).value).value].1 == mm[FindKey(mm, hm).value].1.handler
  {
    MethodRouterOfSpec(mm);
    var f := FilterOf(hm).value;
    match FindKey(mr, f)
    case None =>
      assert forall j :: 0 <= j < |mm| ==> mm[j].0 != hm;
    case Some(j) =>
      FilterOfInjective(mm[j].0, hm);
      FindMethodUnique(mm, path, hm, j);
  }

  /** A router built from a well-formed table hands a request to exactly the
      handler registered for its route template and method; a known template
      with an unregistered method is `MethodNotAllowed`, an unknown one
      `NotFound`. */
  lemma DispatchAgreesWithTable(m: PathMap, rs: seq<Route>, path: string, hm: Method)
    requires TableValid(m) && RoutesOf(m) == Ok(rs)
    ensures Lookup(m, path, hm).Some? ==> DispatchOf(rs, path, hm) == Found(Lookup(m, path, hm).value.handler)
    ensures Lookup(m, path, hm).None? && FindKey(m, path).Some? ==> DispatchOf(rs, path, hm) == MethodNotAllowed
    ensures FindKey(m, path).None? ==> DispatchOf(rs, path, hm) == NotFound
  {
    FindPathRoute(m, rs, path);
    RoutesOfSpec(m);
    match FindKey(m, path)
    case None =>
    case Some(k) =>
      if hm.Extension? {
        assert !AnyExtension(m);
        assert forall j :: 0 <= j < |m[k].1| ==> m[k].1[j].0 != hm;
      } else {
        FindMethodFilter(path, m[k].1, rs[k].methods, hm);
      }
  }
}
