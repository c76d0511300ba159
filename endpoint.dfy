/** `src/endpoint.rs`: an endpoint (its route, method, payload limit, context
    extractor, handler and four slot types) and the fixed pipeline that turns
    a request into a response: context, path parameters, query, payload, run,
    serialise, stopping at the first failing stage. */
module Endpoints {
  import opened Wrappers
  import opened Text
  import opened JsonValues
  import opened Http
  import opened Mime
  import opened Void
  import opened Schema
  import opened ApiErrors
  import opened Responses

  /** `ParsedRequest`: what the handler receives. */
  datatype ParsedRequest<C, P, Q, B> = ParsedRequest(context: C, params: P, query: Q, payload: B)

  /** `max_payload_size`'s default: 2 MiB. */
  const DefaultMaxPayloadSize: nat := 2 * 1024 * 1024

  /** An implementation of the `Endpoint` trait. `ctx` may change the request
      head it is given; its errors and those of `run` are already converted
      by `into_api_error`. */
  datatype Endpoint<!C, !P, !Q, !B, !O> = Endpoint(
    path: string,
    httpMethod: Method,
    maxPayloadSize: nat,
    ctx: Parts -> Result<(C, Parts), ApiError>,
    run: ParsedRequest<C, P, Q, B> -> Result<O, ApiError>,
    params: TypeDesc<P>,
    query: TypeDesc<Q>,
    payload: TypeDesc<B>,
    output: TypeDesc<O>)

  /** Every slot's type description is one the compiler could produce. */
  predicate SlotsWellFormed<C, P, Q, B, O>(e: Endpoint<C, P, Q, B, O>) {
    WellFormed(e.params.info) && WellFormed(e.query.info)
    && WellFormed(e.payload.info) && WellFormed(e.output.info)
  }

  // ---------------------------------------------------------------------
  // Reading the body

  /** The bytes of the chunks, in order. */
  function Concat(chunks: seq<seq<byte>>): seq<byte> {
    if chunks == [] then [] else Concat(chunks[..|chunks| - 1]) + chunks[|chunks| - 1]
  }

  lemma {:induction false} ConcatPrefixLen(chunks: seq<seq<byte>>, j: nat)
    requires j <= |chunks|
    ensures |Concat(chunks[..j])| <= |Concat(chunks)|
    decreases |chunks|
  {
    if j < |chunks| {
      var n := |chunks|;
      assert chunks[..n - 1][..j] == chunks[..j];
      ConcatPrefixLen(chunks[..n - 1], j);
    } else {
      assert chunks[..j] == chunks;
    }
  }

  /** `ReadBodyError`. */
  datatype ReadBodyError = MaxSizeExceeded(maxSize: nat) | Read(message: string)

  /** Its `Display`: the limit in decimal, or the stream error's own text. */
  function ReadBodyErrorText(e: ReadBodyError): string {
    match e
    case MaxSizeExceeded(n) => "body max size of " + Decimal(n) + " bytes exceeded"
    case Read(m) => m
  }

  /** `impl From<ReadBodyError> for ApiError`. */
  function ReadBodyApiError(e: ReadBodyError): (r: ApiError)
    ensures r.status == 400 && r.kind == PayloadRead
  {
    BadRequest(PayloadRead, "error reading payload: " + ReadBodyErrorText(e))
  }

  /** What reading the whole body comes to: the limit is exceeded exactly when
      the chunks together are longer than it, whatever follows them; otherwise
      a stream error is reported; otherwise all bytes are returned. */
  function ReadBodyOutcome(maxSize: nat, body: Body): Result<seq<byte>, ReadBodyError> {
    if |Concat(body.chunks)| > maxSize then Err(MaxSizeExceeded(maxSize))
    else match body.failure
      case Some(m) => Err(Read(m))
      case None => Ok(Concat(body.chunks))
  }

  /** `read_body`: append chunk after chunk, refusing any chunk that would take
      the buffer past the limit. */
  method ReadBody(maxSize: nat, body: Body) returns (r: Result<seq<byte>, ReadBodyError>)
    ensures r == ReadBodyOutcome(maxSize, body)
  {
    var buf: seq<byte> := [];
    var i := 0;
    while i < |body.chunks|
      invariant 0 <= i <= |body.chunks|
      invariant buf == Concat(body.chunks[..i])
      invariant |buf| <= maxSize
    {
      var chunk := body.chunks[i];
      assert body.chunks[..i + 1][..i] == body.chunks[..i];
      if |buf| + |chunk| > maxSize {
        ConcatPrefixLen(body.chunks, i + 1);
        return Err(MaxSizeExceeded(maxSize));
      }
      buf := buf + chunk;
      i := i + 1;
    }
    assert body.chunks[..i] == body.chunks;
    if body.failure.Some? {
      return Err(Read(body.failure.value));
    }
    return Ok(buf);
  }

  // ---------------------------------------------------------------------
  // The content type

  /** `is_content_type_json`: the first `content-type` header must be text,
      parse as a media type, and have the essence `application/json`. */
  predicate IsContentTypeJson(parts: Parts) {
    match ContentTypeText(parts)
    case None => false
    case Some(s) =>
      match ParseMediaType(s)
      case None => false
      case Some(m) => Essence(m) == "application/json"
  }

  /** The first `content-type` header, when it is text. */
  function ContentTypeText(parts: Parts): Option<string> {
    match HeaderGet(parts.headers, "content-type")
    case None => None
    case Some(v) => HeaderToStr(v)
  }

  lemma SlashInLonger(x: string, y: string, a: string, b: string)
    requires x + "/" + y == a + "/" + b && |x| < |a|
    ensures '/' in a
  {
    var s := x + "/" + y;
    assert s[|x|] == '/' && s[|x|] == a[|x|];
  }

  /** Two texts cut at their first slash agree piece by piece. */
  lemma SplitAtSlash(x: string, y: string, a: string, b: string)
    requires '/' !in x && '/' !in a
    requires x + "/" + y == a + "/" + b
    ensures x == a && y == b
  {
    if |x| < |a| {
      SlashInLonger(x, y, a, b);
      assert false;
    } else if |a| < |x| {
      SlashInLonger(a, b, x, y);
      assert false;
    }
    var s := x + "/" + y;
    assert x == s[..|x|] && a == s[..|a|];
    assert y == s[|x| + 1..] && b == s[|a| + 1..];
  }

  lemma EssenceIsJson(m: MediaType)
    requires '/' !in m.typ
    ensures Essence(m) == "application/json" <==> m.typ == "application" && m.subtype == "json"
  {
    if Essence(m) == "application/json" {
      assert "application/json" == "application" + "/" + "json";
      SplitAtSlash(m.typ, m.subtype, "application", "json");
    }
  }

  lemma TokensAreVisible(t: string)
    requires forall i :: 0 <= i < |t| ==> IsTchar(t[i])
    ensures forall i :: 0 <= i < |t| ==> t[i] == '\t' || (' ' <= t[i] <= '~')
    ensures '/' !in t
  {
  }

  lemma {:induction false} LowerKeepsNoSlash(t: string)
    requires '/' !in t
    ensures '/' !in LowerAscii(t)
  {
    var l := LowerAscii(t);
    forall i | 0 <= i < |l|
      ensures l[i] != '/'
    {
      assert t[i] != '/';
    }
  }

  lemma MediaTextVisible(t: string, st: string, ps: string)
    requires IsToken(t) && IsToken(st)
    requires forall i :: 0 <= i < |ps| ==> ps[i] == '\t' || (' ' <= ps[i] <= '~')
    ensures forall i :: 0 <= i < |t + "/" + st + ps| ==>
      (t + "/" + st + ps)[i] == '\t' || (' ' <= (t + "/" + st + ps)[i] <= '~')
  {
    TokensAreVisible(t);
    TokensAreVisible(st);
    var u := t + "/" + st;
    assert forall i :: 0 <= i < |u| ==> u[i] == '\t' || (' ' <= u[i] <= '~');
  }

  /** A `content-type` header `type/subtype` followed by any parameters is
      accepted exactly when type and subtype are `application` and `json`,
      ignoring case. */
  lemma ContentTypeJsonIff(parts: Parts, t: string, st: string, ps: string)
    requires IsToken(t) && IsToken(st) && ParametersOk(ps)
    requires forall i :: 0 <= i < |ps| ==> ps[i] == '\t' || (' ' <= ps[i] <= '~')
    requires HeaderGet(parts.headers, "content-type") == Some(AsciiBytes(t + "/" + st + ps))
    ensures IsContentTypeJson(parts) <==> LowerAscii(t) == "application" && LowerAscii(st) == "json"
  {
    var s := t + "/" + st + ps;
    var m := MediaType(LowerAscii(t), LowerAscii(st));
    MediaTextVisible(t, st, ps);
    EssenceIgnoresParameters(t, st, ps);
    ContentTypeOfMediaType(parts, s, m);
    TokensAreVisible(t);
    LowerKeepsNoSlash(t);
    EssenceIsJson(m);
  }

  /** A `content-type` header whose text after the subtype the mime crate does
      not read as parameters, such as `application/json ;charset=utf-8` or
      `application/json;\tcharset=utf-8`, is refused. */
  lemma ContentTypeBadParametersRefused(parts: Parts, t: string, st: string, ps: string)
    requires IsToken(t) && IsToken(st)
    requires ps != [] && !IsTchar(ps[0]) && !ParametersOk(ps)
    requires forall i :: 0 <= i < |ps| ==> ps[i] == '\t' || (' ' <= ps[i] <= '~')
    requires HeaderGet(parts.headers, "content-type") == Some(AsciiBytes(t + "/" + st + ps))
    ensures !IsContentTypeJson(parts)
  {
    var s := t + "/" + st + ps;
    MediaTextVisible(t, st, ps);
    HeaderToStrAscii(s);
    assert ContentTypeText(parts) == Some(s);
    BadParametersNoMediaType(t, st, ps);
  }

  /** A visible `content-type` header that parses is judged by its essence. */
  lemma ContentTypeOfMediaType(parts: Parts, s: string, m: MediaType)
    requires forall i :: 0 <= i < |s| ==> s[i] == '\t' || (' ' <= s[i] <= '~')
    requires HeaderGet(parts.headers, "content-type") == Some(AsciiBytes(s))
    requires ParseMediaType(s) == Some(m)
    ensures IsContentTypeJson(parts) <==> Essence(m) == "application/json"
  {
    HeaderToStrAscii(s);
    assert ContentTypeText(parts) == Some(s);
  }

  /** Only the first `content-type` header counts: the check gives the same
      answer as for a request carrying that header alone, whatever other
      headers, and later `content-type` headers, say. */
  lemma FirstContentTypeDecides(parts: Parts, k: nat)
    requires k < |parts.headers| && parts.headers[k].0 == "content-type"
    requires forall j :: 0 <= j < k ==> parts.headers[j].0 != "content-type"
    ensures IsContentTypeJson(parts) == IsContentTypeJson(parts.(headers := [parts.headers[k]]))
  {
    HeaderGetFirst(parts.headers, "content-type", k);
    HeaderGetFirst([parts.headers[k]], "content-type", 0);
  }

  /** Without a `content-type` header the payload is refused. */
  lemma NoContentTypeNotJson(parts: Parts)
    requires forall i :: 0 <= i < |parts.headers| ==> parts.headers[i].0 != "content-type"
    ensures !IsContentTypeJson(parts)
  {
  }

  // ---------------------------------------------------------------------
  // The stages

  /** The error kinds and message prefixes of one extraction stage. */
  datatype StageNames = StageNames(
    parseKind: ApiErrorKind, parsePrefix: string,
    validateKind: ApiErrorKind, validatePrefix: string)

  const ParamsStage := StageNames(
    InvalidParamsParse, "error parsing path parameters: ",
    InvalidParamsValidate, "error validating path parameters: ")

  const QueryStage := StageNames(
    InvalidQueryParse, "error parsing query parameters: ",
    InvalidQueryValidate, "error validating query parameters: ")

  const PayloadStage := StageNames(
    InvalidPayloadParse, "error parsing payload: ",
    InvalidPayloadValidate, "error validating payload: ")

  const ContentTypeError := BadRequest(PayloadContentType, "content-type of request must be application/json")

  /** Parse, then validate with garde: a value is handed on only when it
      parsed and passed validation; each failure is a 400 of its own kind,
      carrying the library's text after the stage's prefix. */
  function ParseThenValidate<T>(names: StageNames, parsed: Result<T, string>, validate: T -> Outcome<string>): (r: Result<T, ApiError>)
    ensures r.Ok? <==> parsed.Ok? && validate(parsed.value) == Pass
    ensures r.Ok? ==> r.value == parsed.value
    ensures parsed.Err? ==> r == Err(BadRequest(names.parseKind, names.parsePrefix + parsed.error))
    ensures parsed.Ok? && validate(parsed.value).Fail?
        ==> r == Err(BadRequest(names.validateKind, names.validatePrefix + validate(parsed.value).error))
  {
    match parsed
    case Err(err) => Err(BadRequest(names.parseKind, names.parsePrefix + err))
    case Ok(v) =>
      match validate(v)
      case Fail(report) => Err(BadRequest(names.validateKind, names.validatePrefix + report))
      case Pass => Ok(v)
  }

  /** Path parameters: the unit value for `()`, else axum's `Path` extractor
      over the captured parameters, then validation. */
  function ExtractParams<P>(d: TypeDesc<P>, parts: Parts): Result<P, ApiError>
    requires WellFormed(d.info)
  {
    if IsVoid(d.info) then Ok(VoidValue(d.info).value)
    else ParseThenValidate(ParamsStage, d.derived.fromPathParams(parts.pathParams), d.validate)
  }

  /** The query string, empty when the URI has none. */
  function QueryText(parts: Parts): string {
    match parts.query
    case Some(q) => q
    case None => ""
  }

  /** Query: the unit value for `()`, else serde_qs over the query string,
      then validation. */
  function ExtractQuery<Q>(d: TypeDesc<Q>, parts: Parts): Result<Q, ApiError>
    requires WellFormed(d.info)
  {
    if IsVoid(d.info) then Ok(VoidValue(d.info).value)
    else ParseThenValidate(QueryStage, d.derived.fromQueryString(QueryText(parts)), d.validate)
  }

  /** Payload: the unit value for `()`, else the content type is checked before
      the body is read (up to the limit), then parsed as JSON and validated. */
  function ExtractPayload<B>(d: TypeDesc<B>, parts: Parts, body: Body, maxSize: nat): Result<B, ApiError>
    requires WellFormed(d.info)
  {
    if IsVoid(d.info) then Ok(VoidValue(d.info).value)
    else if !IsContentTypeJson(parts) then Err(ContentTypeError)
    else match ReadBodyOutcome(maxSize, body)
      case Err(err) => Err(ReadBodyApiError(err))
      case Ok(buf) => ParseThenValidate(PayloadStage, d.derived.fromJsonBytes(buf), d.validate)
  }

  /** Everything before `run`: context, then path parameters, query and
      payload in that order, the first failure deciding the error. */
  function ParseRequest<C, P, Q, B, O>(e: Endpoint<C, P, Q, B, O>, req: Request): Result<ParsedRequest<C, P, Q, B>, ApiError>
    requires SlotsWellFormed(e)
  {
    match e.ctx(req.parts)
    case Err(err) => Err(err)
    case Ok((c, parts)) =>
      match ExtractParams(e.params, parts)
      case Err(err) => Err(err)
      case Ok(p) =>
        match ExtractQuery(e.query, parts)
        case Err(err) => Err(err)
        case Ok(q) =>
          match ExtractPayload(e.payload, parts, req.body, e.maxPayloadSize)
          case Err(err) => Err(err)
          case Ok(b) => Ok(ParsedRequest(c, p, q, b))
  }

  /** `Endpoint::handle`. The answer is a response, or a panic where the
      conversion of an error into a response panics. */
  function Handle<C, P, Q, B, O>(e: Endpoint<C, P, Q, B, O>, req: Request): Result<Response, Panic>
    requires SlotsWellFormed(e)
  {
    match ParseRequest(e, req)
    case Err(err) => IntoResponse(err)
    case Ok(parsed) =>
      match e.run(parsed)
      case Err(err) => IntoResponse(err)
      case Ok(out) => IntoJsonResponse(out, e.output.derived.toJson)
  }

  // ---------------------------------------------------------------------
  // Properties of the pipeline

  /** The kinds the pipeline's own stages produce. */
  predicate IsStageKind(k: ApiErrorKind) {
    k in {InvalidParamsParse, InvalidParamsValidate, InvalidQueryParse, InvalidQueryValidate,
          PayloadRead, PayloadContentType, InvalidPayloadParse, InvalidPayloadValidate}
  }

  /** Each stage either hands on a value that passed validation (or the unit
      value of a void slot) or fails with a 400 of that stage's kinds. */
  lemma ExtractParamsSpec<P>(d: TypeDesc<P>, parts: Parts)
    requires WellFormed(d.info)
    ensures IsVoid(d.info) ==> ExtractParams(d, parts) == Ok(VoidValue(d.info).value)
    ensures !IsVoid(d.info) && ExtractParams(d, parts).Ok? ==> d.validate(ExtractParams(d, parts).value) == Pass
    ensures ExtractParams(d, parts).Err? ==>
      && ExtractParams(d, parts).error.status == 400
      && ExtractParams(d, parts).error.kind in {InvalidParamsParse, InvalidParamsValidate}
  {
  }

  lemma ExtractQuerySpec<Q>(d: TypeDesc<Q>, parts: Parts)
    requires WellFormed(d.info)
    ensures IsVoid(d.info) ==> ExtractQuery(d, parts) == Ok(VoidValue(d.info).value)
    ensures !IsVoid(d.info) && ExtractQuery(d, parts).Ok? ==> d.validate(ExtractQuery(d, parts).value) == Pass
    ensures ExtractQuery(d, parts).Err? ==>
      && ExtractQuery(d, parts).error.status == 400
      && ExtractQuery(d, parts).error.kind in {InvalidQueryParse, InvalidQueryValidate}
  {
  }

  lemma ExtractPayloadSpec<B>(d: TypeDesc<B>, parts: Parts, body: Body, maxSize: nat)
    requires WellFormed(d.info)
    ensures IsVoid(d.info) ==> ExtractPayload(d, parts, body, maxSize) == Ok(VoidValue(d.info).value)
    ensures !IsVoid(d.info) && ExtractPayload(d, parts, body, maxSize).Ok? ==>
      && d.validate(ExtractPayload(d, parts, body, maxSize).value) == Pass
      && IsContentTypeJson(parts)
      && |Concat(body.chunks)| <= maxSize && body.failure.None?
    ensures ExtractPayload(d, parts, body, maxSize).Err? ==>
      && ExtractPayload(d, parts, body, maxSize).error.status == 400
      && ExtractPayload(d, parts, body, maxSize).error.kind
         in {PayloadContentType, PayloadRead, InvalidPayloadParse, InvalidPayloadValidate}
  {
  }

  /** A void payload slot never looks at the content type or the body. */
  lemma VoidPayloadIgnoresBody<C, P, Q, B, O>(e: Endpoint<C, P, Q, B, O>, parts: Parts, b1: Body, b2: Body)
    requires SlotsWellFormed(e) && IsVoid(e.payload.info)
    ensures Handle(e, Request(parts, b1)) == Handle(e, Request(parts, b2))
  {
    if e.ctx(parts).Ok? {
      var p := e.ctx(parts).value.1;
      assert ExtractPayload(e.payload, p, b1, e.maxPayloadSize) == ExtractPayload(e.payload, p, b2, e.maxPayloadSize);
    }
    assert ParseRequest(e, Request(parts, b1)) == ParseRequest(e, Request(parts, b2));
  }

  /** Once the context is built, a payload without the JSON content type is
      refused before any byte of the body is read: the body, however long or
      broken, does not matter. */
  lemma ContentTypeBeforeBody<C, P, Q, B, O>(e: Endpoint<C, P, Q, B, O>, req: Request, c: C, parts: Parts)
    requires SlotsWellFormed(e) && !IsVoid(e.payload.info)
    requires e.ctx(req.parts) == Ok((c, parts))
    requires ExtractParams(e.params, parts).Ok? && ExtractQuery(e.query, parts).Ok?
    requires !IsContentTypeJson(parts)
    ensures Handle(e, req) == IntoResponse(ContentTypeError)
    ensures Handle(e, req).Ok? && Handle(e, req).value.status == 400
  {
    assert ExtractPayload(e.payload, parts, req.body, e.maxPayloadSize) == Err(ContentTypeError);
    assert ParseRequest(e, req) == Err(ContentTypeError);
  }

  /** The message of a refused oversized body. */
  function OversizeMessage(maxSize: nat): string {
    "error reading payload: " + "body max size of " + Decimal(maxSize) + " bytes exceeded"
  }

  lemma OversizeError(maxSize: nat)
    ensures ReadBodyApiError(MaxSizeExceeded(maxSize)) == BadRequest(PayloadRead, OversizeMessage(maxSize))
  {
    var a, b, n, c := "error reading payload: ", "body max size of ", Decimal(maxSize), " bytes exceeded";
    assert a + (b + n + c) == a + b + n + c;
  }

  /** A body longer than the limit is refused with the limit in the message,
      whether or not the stream would have failed afterwards. */
  lemma OversizedPayloadStage<B>(d: TypeDesc<B>, parts: Parts, body: Body, maxSize: nat)
    requires WellFormed(d.info) && !IsVoid(d.info) && IsContentTypeJson(parts)
    requires |Concat(body.chunks)| > maxSize
    ensures ExtractPayload(d, parts, body, maxSize) == Err(BadRequest(PayloadRead, OversizeMessage(maxSize)))
  {
    assert ReadBodyOutcome(maxSize, body) == Err(MaxSizeExceeded(maxSize));
    OversizeError(maxSize);
  }

  lemma OversizedPayload<C, P, Q, B, O>(e: Endpoint<C, P, Q, B, O>, req: Request, c: C, parts: Parts)
    requires SlotsWellFormed(e) && !IsVoid(e.payload.info)
    requires e.ctx(req.parts) == Ok((c, parts))
    requires ExtractParams(e.params, parts).Ok? && ExtractQuery(e.query, parts).Ok?
    requires IsContentTypeJson(parts)
    requires |Concat(req.body.chunks)| > e.maxPayloadSize
    ensures ParseRequest(e, req) == Err(BadRequest(PayloadRead, OversizeMessage(e.maxPayloadSize)))
  {
    OversizedPayloadStage(e.payload, parts, req.body, e.maxPayloadSize);
  }

  /** Every error the pipeline itself raises (after the context is built) is
      a 400 of a stage kind, so its response is a 400 and never a panic. */
  lemma StageErrorsAreBadRequests<C, P, Q, B, O>(e: Endpoint<C, P, Q, B, O>, req: Request)
    requires SlotsWellFormed(e)
    requires e.ctx(req.parts).Ok? && ParseRequest(e, req).Err?
    ensures ParseRequest(e, req).error.status == 400 && IsStageKind(ParseRequest(e, req).error.kind)
    ensures StatusMatchesKind(ParseRequest(e, req).error)
    ensures Handle(e, req).Ok? && Handle(e, req).value.status == 400
  {
    var parts := e.ctx(req.parts).value.1;
    ExtractParamsSpec(e.params, parts);
    ExtractQuerySpec(e.query, parts);
    ExtractPayloadSpec(e.payload, parts, req.body, e.maxPayloadSize);
  }

  /** The handler runs only on a fully parsed request: when parsing fails,
      neither `run` nor the output type has any say in the answer. */
  lemma RunOnlyAfterParsing<C, P, Q, B, O>(e: Endpoint<C, P, Q, B, O>, req: Request,
                                           run2: ParsedRequest<C, P, Q, B> -> Result<O, ApiError>,
                                           output2: TypeDesc<O>)
    requires SlotsWellFormed(e) && WellFormed(output2.info)
    requires ParseRequest(e, req).Err?
    ensures Handle(e.(run := run2, output := output2), req) == Handle(e, req)
  {
    assert ParseRequest(e.(run := run2, output := output2), req) == ParseRequest(e, req);
  }

  /** A failing context decides the answer: no slot and no byte of the body
      is consulted, so any other slots and any other body answer the same. */
  lemma CtxFailureDecides<C, P, Q, B, O>(e: Endpoint<C, P, Q, B, O>, req: Request, err: ApiError,
                                         params2: TypeDesc<P>, query2: TypeDesc<Q>,
                                         payload2: TypeDesc<B>, body2: Body)
    requires SlotsWellFormed(e)
    requires WellFormed(params2.info) && WellFormed(query2.info) && WellFormed(payload2.info)
    requires e.ctx(req.parts) == Err(err)
    ensures Handle(e, req) == IntoResponse(err)
    ensures Handle(e.(params := params2, query := query2, payload := payload2), Request(req.parts, body2))
         == IntoResponse(err)
  {
  }

  /** A failing path-parameter stage decides the answer: neither the query
      slot, the payload slot nor the body is consulted. */
  lemma ParamsFailureDecides<C, P, Q, B, O>(e: Endpoint<C, P, Q, B, O>, req: Request, c: C, parts: Parts,
                                            err: ApiError, query2: TypeDesc<Q>,
                                            payload2: TypeDesc<B>, body2: Body)
    requires SlotsWellFormed(e) && WellFormed(query2.info) && WellFormed(payload2.info)
    requires e.ctx(req.parts) == Ok((c, parts))
    requires ExtractParams(e.params, parts) == Err(err)
    ensures Handle(e, req) == IntoResponse(err)
    ensures Handle(e.(query := query2, payload := payload2), Request(req.parts, body2)) == Handle(e, req)
  {
  }

  /** A failing query stage decides the answer: neither the payload slot nor
      the body is consulted. */
  lemma QueryFailureDecides<C, P, Q, B, O>(e: Endpoint<C, P, Q, B, O>, req: Request, c: C, parts: Parts,
                                           err: ApiError, payload2: TypeDesc<B>, body2: Body)
    requires SlotsWellFormed(e) && WellFormed(payload2.info)
    requires e.ctx(req.parts) == Ok((c, parts))
    requires ExtractParams(e.params, parts).Ok? && ExtractQuery(e.query, parts) == Err(err)
    ensures Handle(e, req) == IntoResponse(err)
    ensures Handle(e.(payload := payload2), Request(req.parts, body2)) == Handle(e, req)
  {
  }

  /** A failing payload stage decides the answer, whatever `run` and the
      output type are. */
  lemma PayloadFailureDecides<C, P, Q, B, O>(e: Endpoint<C, P, Q, B, O>, req: Request, c: C, parts: Parts,
                                             err: ApiError,
                                             run2: ParsedRequest<C, P, Q, B> -> Result<O, ApiError>,
                                             output2: TypeDesc<O>)
    requires SlotsWellFormed(e) && WellFormed(output2.info)
    requires e.ctx(req.parts) == Ok((c, parts))
    requires ExtractParams(e.params, parts).Ok? && ExtractQuery(e.query, parts).Ok?
    requires ExtractPayload(e.payload, parts, req.body, e.maxPayloadSize) == Err(err)
    ensures Handle(e, req) == IntoResponse(err)
    ensures Handle(e.(run := run2, output := output2), req) == Handle(e, req)
  {
  }

  /** A failing `run` decides the answer: the output is never serialised, so
      the output type has no say. */
  lemma RunFailureDecides<C, P, Q, B, O>(e: Endpoint<C, P, Q, B, O>, req: Request,
                                         parsed: ParsedRequest<C, P, Q, B>, err: ApiError,
                                         output2: TypeDesc<O>)
    requires SlotsWellFormed(e) && WellFormed(output2.info)
    requires ParseRequest(e, req) == Ok(parsed) && e.run(parsed) == Err(err)
    ensures Handle(e, req) == IntoResponse(err)
    ensures Handle(e.(output := output2), req) == IntoResponse(err)
  {
  }

  /** What the handler receives: every non-void slot holds a value that passed
      validation, and a non-void payload came with the JSON content type and a
      complete body within the limit. */
  lemma ParsedRequestValidated<C, P, Q, B, O>(e: Endpoint<C, P, Q, B, O>, req: Request)
    requires SlotsWellFormed(e) && ParseRequest(e, req).Ok?
    ensures var pr := ParseRequest(e, req).value;
      && (!IsVoid(e.params.info) ==> e.params.validate(pr.params) == Pass)
      && (!IsVoid(e.query.info) ==> e.query.validate(pr.query) == Pass)
      && (!IsVoid(e.payload.info) ==>
            && e.payload.validate(pr.payload) == Pass
            && IsContentTypeJson(e.ctx(req.parts).value.1)
            && |Concat(req.body.chunks)| <= e.maxPayloadSize && req.body.failure.None?)
      && pr.context == e.ctx(req.parts).value.0
  {
    var parts := e.ctx(req.parts).value.1;
    ExtractParamsSpec(e.params, parts);
    ExtractQuerySpec(e.query, parts);
    ExtractPayloadSpec(e.payload, parts, req.body, e.maxPayloadSize);
  }

  /** A successful run answers 200 with exactly the serialised output and the
      JSON content type; a failed serialisation answers the 500 fallback. */
  lemma HandleSuccess<C, P, Q, B, O>(e: Endpoint<C, P, Q, B, O>, req: Request)
    requires SlotsWellFormed(e) && ParseRequest(e, req).Ok?
    requires e.run(ParseRequest(e, req).value).Ok?
    ensures var out := e.run(ParseRequest(e, req).value).value;
      && (e.output.derived.toJson(out).Ok? ==>
            Handle(e, req) == Ok(Response(200, JsonContentType, e.output.derived.toJson(out).value)))
      && (e.output.derived.toJson(out).Err? ==>
            Handle(e, req) == IntoResponse(SerializeFailure) && Handle(e, req).value.status == 500)
  {
    SerializeFailureResponse();
  }

  /** The pipeline panics only when an error produced by the endpoint's own
      code (the context or the handler) carries a status that is not a
      three-digit code. */
  lemma PanicsOnlyFromEndpointErrors<C, P, Q, B, O>(e: Endpoint<C, P, Q, B, O>, req: Request)
    requires SlotsWellFormed(e)
    ensures Handle(e, req).Err? <==>
      (e.ctx(req.parts).Err? && !IsStatusCode(e.ctx(req.parts).error.status as int))
      || (ParseRequest(e, req).Ok? && e.run(ParseRequest(e, req).value).Err?
          && !IsStatusCode(e.run(ParseRequest(e, req).value).error.status as int))
  {
    if e.ctx(req.parts).Ok? && ParseRequest(e, req).Err? {
      StageErrorsAreBadRequests(e, req);
    }
  }
}
