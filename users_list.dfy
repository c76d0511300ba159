/** `src/api/users/list.rs`: `GET /users`, a page of users. Its params and
    payload are `()`, its query holds an optional skip and an optional limit,
    and `run` answers an empty page that echoes them, defaults filled in.

    The serde, serde_qs, schemars and shape parts of its types, garde's
    report rendering and garde's email check are foreign: they are
    parameters of the endpoint. */
module UsersList {
  import opened Wrappers
  import opened Http
  import opened Void
  import opened Schema
  import opened ApiErrors
  import opened Responses
  import opened Endpoints
  import opened Validation
  import opened Shared
  import opened Users

  /** `Query`: both fields optional, each validated by its own rules. */
  datatype ListQuery = ListQuery(skip: Option<Skip>, limit: Option<Limit>)

  /** The derived validation: `dive` into each present field. */
  function QueryReport(q: ListQuery): Report {
    Under(Field("skip"), OptionReport(q.skip, SkipReport))
    + Under(Field("limit"), OptionReport(q.limit, LimitReport))
  }

  /** A query is valid exactly when a limit, if given, lies in 1..=200; any
      skip, and a missing limit, are accepted. */
  lemma QueryValidIff(q: ListQuery)
    ensures QueryReport(q) == [] <==> q.limit.None? || 1 <= q.limit.value.n <= 200
  {
    if q.skip.Some? {
      SkipAlwaysValid(q.skip.value);
    }
    if q.limit.Some? {
      LimitValidIff(q.limit.value);
    }
  }

  /** `run`: `unwrap_or_default` on both fields, no records. */
  function Run(q: ListQuery): Page<User> {
    var skip := match q.skip case Some(s) => s case None => DefaultSkipValue();
    var limit := match q.limit case Some(l) => l case None => DefaultLimitValue();
    Page(skip.n, limit.n, 0, [])
  }

  /** The page echoes the given skip (or 0) and limit (or 200), with total 0
      and no items. */
  lemma RunSpec(q: ListQuery)
    ensures Run(q).skip == if q.skip.Some? then q.skip.value.n else 0
    ensures Run(q).limit == if q.limit.Some? then q.limit.value.n else 200
    ensures Run(q).total == 0 && Run(q).items == []
  {
  }

  /** For a query that passed validation the answer is itself a valid page. */
  lemma RunOutputValid(q: ListQuery, isEmail: string -> bool)
    requires QueryReport(q) == []
    ensures PageReport(Run(q), u => UserReport(u, isEmail)) == []
  {
    QueryValidIff(q);
    PageValidIff(Run(q), u => UserReport(u, isEmail));
  }

  /** The foreign parts of the endpoint's types. */
  datatype ListForeign = ListForeign(
    unit: Derived<()>,
    query: Derived<ListQuery>,
    output: Derived<Page<User>>,
    render: Report -> string,
    isEmail: string -> bool)

  /** `users::list::E`. */
  function ListEndpoint(f: ListForeign): (e: Endpoint<(), (), ListQuery, (), Page<User>>)
    ensures SlotsWellFormed(e)
    ensures e.path == "/users" && e.httpMethod == GET
    ensures IsVoid(e.params.info) && IsVoid(e.payload.info)
    ensures !IsVoid(e.query.info) && !IsVoid(e.output.info)
  {
    Endpoint(
      "/users", GET, DefaultMaxPayloadSize,
      parts => Ok(((), parts)),
      (parsed: ParsedRequest<(), (), ListQuery, ()>) => Ok(Run(parsed.query)),
      UnitDesc(f.unit),
      TypeDesc(NamedInfo("Query"), f.query, q => Verdict(QueryReport(q), f.render)),
      UnitDesc(f.unit),
      TypeDesc(NamedInfo("Page<User>"), f.output, p => Verdict(PageReport(p, u => UserReport(u, f.isEmail)), f.render)))
  }

  /** `ctx` always succeeds with `()` and leaves the request head as it is. */
  lemma ListContext(f: ListForeign, parts: Parts)
    ensures ListEndpoint(f).ctx(parts) == Ok(((), parts))
  {
  }

  /** The query text serde_qs turns into the query. */
  predicate QueryParses(f: ListForeign, req: Request, q: ListQuery) {
    f.query.fromQueryString(QueryText(req.parts)) == Ok(q)
  }

  /** A valid query is answered with the page, whatever the body; the path
      parameters and the payload are never looked at. */
  lemma ListAnswer(f: ListForeign, req: Request, q: ListQuery)
    requires QueryParses(f, req, q) && QueryReport(q) == []
    ensures Handle(ListEndpoint(f), req) == IntoJsonResponse(Run(q), f.output.toJson)
  {
    var e := ListEndpoint(f);
    assert ExtractParams(e.params, req.parts) == Ok(());
    assert ExtractQuery(e.query, req.parts) == Ok(q);
    assert ExtractPayload(e.payload, req.parts, req.body, e.maxPayloadSize) == Ok(());
    assert ParseRequest(e, req) == Ok(ParsedRequest((), (), q, ()));
  }

  /** A limit outside 1..=200 is a 400 `InvalidQueryValidate`, with garde's
      report after the stage's prefix. */
  lemma ListLimitOutOfRange(f: ListForeign, req: Request, q: ListQuery)
    requires QueryParses(f, req, q)
    requires q.limit.Some? && !(1 <= q.limit.value.n <= 200)
    ensures Handle(ListEndpoint(f), req)
         == IntoResponse(BadRequest(InvalidQueryValidate, "error validating query parameters: " + f.render(QueryReport(q))))
    ensures Handle(ListEndpoint(f), req).Ok? && Handle(ListEndpoint(f), req).value.status == 400
  {
    var e := ListEndpoint(f);
    QueryValidIff(q);
    assert ExtractParams(e.params, req.parts) == Ok(());
    assert ExtractQuery(e.query, req.parts)
        == Err(BadRequest(InvalidQueryValidate, "error validating query parameters: " + f.render(QueryReport(q))));
  }

  /** A query string serde_qs refuses is a 400 `InvalidQueryParse`. */
  lemma ListQueryUnparsable(f: ListForeign, req: Request, message: string)
    requires f.query.fromQueryString(QueryText(req.parts)) == Err(message)
    ensures Handle(ListEndpoint(f), req)
         == IntoResponse(BadRequest(InvalidQueryParse, "error parsing query parameters: " + message))
  {
    var e := ListEndpoint(f);
    assert ExtractParams(e.params, req.parts) == Ok(());
  }
}
