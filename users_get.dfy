/** `src/api/users/get.rs`: `GET /users/:id`, one user. Its query and payload
    are `()`, its path parameters are an `id` with the same pattern as a
    user's, and `run` answers a fixed user whatever it is asked.

    The output type is written `Item` in the source, imported from the users
    module, which declares only `User`; the model reads it as `User`. */
module UsersGet {
  import opened Wrappers
  import opened Text
  import opened Http
  import opened Void
  import opened Schema
  import opened ApiErrors
  import opened Responses
  import opened Endpoints
  import opened Validation
  import opened Users

  /** `Params`. */
  datatype GetParams = GetParams(id: string)

  /** The derived validation: `pattern("^[a-z0-9]+$")` on `id`. */
  function ParamsReport(p: GetParams): Report {
    Under(Field("id"), Check(MatchesIdPattern(p.id), Pattern))
  }

  /** The parameters are valid exactly when `id` is a non-empty run of
      lower-case ASCII letters and digits. */
  lemma ParamsValidIff(p: GetParams)
    ensures ParamsReport(p) == [] <==> p.id != [] && forall i :: 0 <= i < |p.id| ==> IsIdChar(p.id[i])
  {
    IdPatternIff(p.id);
  }

  /** `run`: the same user for every request. */
  function Run(): User {
    User("123", "test@test.com")
  }

  /** That user is valid, given that garde's email check accepts its address. */
  lemma RunOutputValid(isEmail: string -> bool)
    requires isEmail("test@test.com")
    ensures UserReport(Run(), isEmail) == []
  {
    var u := Run();
    assert |u.id| == 3 && IsIdChar(u.id[0]) && IsIdChar(u.id[1]) && IsIdChar(u.id[2]);
    assert |u.email| == 13;
    ShortUserValid(u, isEmail);
  }

  /** The foreign parts of the endpoint's types. */
  datatype GetForeign = GetForeign(
    unit: Derived<()>,
    params: Derived<GetParams>,
    output: Derived<User>,
    render: Report -> string,
    isEmail: string -> bool)

  /** `users::get::E`. */
  function GetEndpoint(f: GetForeign): (e: Endpoint<(), GetParams, (), (), User>)
    ensures SlotsWellFormed(e)
    ensures e.path == "/users/:id" && e.httpMethod == GET
    ensures IsVoid(e.query.info) && IsVoid(e.payload.info)
    ensures !IsVoid(e.params.info) && !IsVoid(e.output.info)
  {
    Endpoint(
      "/users/:id", GET, DefaultMaxPayloadSize,
      parts => Ok(((), parts)),
      (parsed: ParsedRequest<(), GetParams, (), ()>) => Ok(Run()),
      TypeDesc(NamedInfo("Params"), f.params, p => Verdict(ParamsReport(p), f.render)),
      UnitDesc(f.unit),
      UnitDesc(f.unit),
      TypeDesc(NamedInfo("User"), f.output, u => Verdict(UserReport(u, f.isEmail), f.render)))
  }

  /** `ctx` always succeeds with `()` and leaves the request head as it is. */
  lemma GetContext(f: GetForeign, parts: Parts)
    ensures GetEndpoint(f).ctx(parts) == Ok(((), parts))
  {
  }

  /** An `id` outside the pattern, such as `ABC` in `/users/ABC`, is a 400
      `InvalidParamsValidate`, before the query or the body is looked at. */
  lemma GetInvalidId(f: GetForeign, req: Request, id: string)
    requires f.params.fromPathParams(req.parts.pathParams) == Ok(GetParams(id))
    requires !MatchesIdPattern(id)
    ensures Handle(GetEndpoint(f), req)
         == IntoResponse(BadRequest(InvalidParamsValidate, "error validating path parameters: " + f.render(ParamsReport(GetParams(id)))))
    ensures Handle(GetEndpoint(f), req).Ok? && Handle(GetEndpoint(f), req).value.status == 400
  {
  }

  lemma UpperCaseIdRefused()
    ensures !MatchesIdPattern("ABC")
  {
    IdPatternIff("ABC");
    assert !IsIdChar("ABC"[0]);
  }

  /** A valid `id` is answered with the fixed user, whichever it is. */
  lemma GetAnswer(f: GetForeign, req: Request, id: string)
    requires f.params.fromPathParams(req.parts.pathParams) == Ok(GetParams(id))
    requires MatchesIdPattern(id)
    ensures Handle(GetEndpoint(f), req) == IntoJsonResponse(Run(), f.output.toJson)
  {
    var e := GetEndpoint(f);
    assert ExtractParams(e.params, req.parts) == Ok(GetParams(id));
    assert ParseRequest(e, req) == Ok(ParsedRequest((), GetParams(id), (), ()));
  }
}
