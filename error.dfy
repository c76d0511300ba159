/** `src/error.rs`: the closed error taxonomy, the error value with its
    garde and normalize rules, the `{error: ...}` envelope, and the conversion
    of an error into an HTTP response. */
module ApiErrors {
  import opened Wrappers
  import opened Text
  import opened JsonValues
  import opened Http

  newtype u16 = x: int | 0 <= x < 0x1_0000

  /** `ApiErrorKind`: exactly eleven kinds, none with data. */
  datatype ApiErrorKind =
    | Internal
    | ResourceNotFound
    | RecordNotFound
    | InvalidParamsParse
    | InvalidParamsValidate
    | InvalidQueryParse
    | InvalidQueryValidate
    | PayloadRead
    | PayloadContentType
    | InvalidPayloadParse
    | InvalidPayloadValidate

  const AllKinds: seq<ApiErrorKind> := [
    Internal, ResourceNotFound, RecordNotFound,
    InvalidParamsParse, InvalidParamsValidate,
    InvalidQueryParse, InvalidQueryValidate,
    PayloadRead, PayloadContentType, InvalidPayloadParse, InvalidPayloadValidate]

  /** The taxonomy is closed: eleven distinct kinds and no other. */
  lemma ElevenKinds(k: ApiErrorKind)
    ensures |AllKinds| == 11 && k in AllKinds
    ensures forall i, j :: 0 <= i < j < |AllKinds| ==> AllKinds[i] != AllKinds[j]
  {
  }

  /** The serde tag of a kind: the variant name in SCREAMING_SNAKE_CASE. */
  function KindTag(k: ApiErrorKind): string {
    match k
    case Internal => "INTERNAL"
    case ResourceNotFound => "RESOURCE_NOT_FOUND"
    case RecordNotFound => "RECORD_NOT_FOUND"
    case InvalidParamsParse => "INVALID_PARAMS_PARSE"
    case InvalidParamsValidate => "INVALID_PARAMS_VALIDATE"
    case InvalidQueryParse => "INVALID_QUERY_PARSE"
    case InvalidQueryValidate => "INVALID_QUERY_VALIDATE"
    case PayloadRead => "PAYLOAD_READ"
    case PayloadContentType => "PAYLOAD_CONTENT_TYPE"
    case InvalidPayloadParse => "INVALID_PAYLOAD_PARSE"
    case InvalidPayloadValidate => "INVALID_PAYLOAD_VALIDATE"
  }

  /** The derived deserializer's reading of a tag. */
  function KindFromTag(tag: string): (r: Option<ApiErrorKind>)
    ensures r.Some? ==> KindTag(r.value) == tag
  {
    if tag == "INTERNAL" then Some(Internal)
    else if tag == "RESOURCE_NOT_FOUND" then Some(ResourceNotFound)
    else if tag == "RECORD_NOT_FOUND" then Some(RecordNotFound)
    else if tag == "INVALID_PARAMS_PARSE" then Some(InvalidParamsParse)
    else if tag == "INVALID_PARAMS_VALIDATE" then Some(InvalidParamsValidate)
    else if tag == "INVALID_QUERY_PARSE" then Some(InvalidQueryParse)
    else if tag == "INVALID_QUERY_VALIDATE" then Some(InvalidQueryValidate)
    else if tag == "PAYLOAD_READ" then Some(PayloadRead)
    else if tag == "PAYLOAD_CONTENT_TYPE" then Some(PayloadContentType)
    else if tag == "INVALID_PAYLOAD_PARSE" then Some(InvalidPayloadParse)
    else if tag == "INVALID_PAYLOAD_VALIDATE" then Some(InvalidPayloadValidate)
    else None
  }

  /** Every kind is read back from its tag, so distinct kinds have distinct
      tags. */
  lemma KindTagRoundTrip(k: ApiErrorKind)
    ensures KindFromTag(KindTag(k)) == Some(k)
  {
  }

  datatype ApiError = ApiError(status: u16, kind: ApiErrorKind, message: string)

  /** garde: `status` must lie in 400..=599; `kind` and `message` are skipped. */
  predicate ApiErrorValid(e: ApiError) {
    400 <= e.status <= 599
  }

  /** `ApiErrorPayload`: the single-field envelope of every error body. */
  datatype ApiErrorPayload = ApiErrorPayload(error: ApiError)

  /** garde dives into the envelope's only field. */
  predicate PayloadValid(p: ApiErrorPayload) {
    ApiErrorValid(p.error)
  }

  /** normalize: `message` is trimmed, `status` is skipped and `kind`, whose
      variants carry nothing, is left as it is. */
  function Normalize(e: ApiError): ApiError {
    e.(message := Trim(e.message))
  }

  function NormalizePayload(p: ApiErrorPayload): ApiErrorPayload {
    ApiErrorPayload(Normalize(p.error))
  }

  /** serde: `status`, then the flattened kind (tag `kind`, no `meta` for a
      variant without content), then `message`. */
  function ErrorToJson(e: ApiError): Json {
    JObject([
      ("status", JNumber(e.status as int)),
      ("kind", JString(KindTag(e.kind))),
      ("message", JString(e.message))])
  }

  function PayloadToJson(p: ApiErrorPayload): Json {
    JObject([("error", ErrorToJson(p.error))])
  }

  /** The derived deserializer of an error object. */
  function ErrorFromJson(j: Json): Option<ApiError> {
    match (Get(j, "status"), Get(j, "kind"), Get(j, "message"))
    case (JNumber(n), JString(tag), JString(m)) =>
      if 0 <= n < 0x1_0000 then
        match KindFromTag(tag)
        case None => None
        case Some(k) => Some(ApiError(n as u16, k, m))
      else None
    case _ => None
  }

  function PayloadFromJson(j: Json): Option<ApiErrorPayload> {
    match ErrorFromJson(Get(j, "error"))
    case None => None
    case Some(e) => Some(ApiErrorPayload(e))
  }

  /** The error body decodes back to the envelope it was written from. */
  lemma PayloadRoundTrip(p: ApiErrorPayload)
    ensures PayloadFromJson(PayloadToJson(p)) == Some(p)
  {
    var e := p.error;
    var j := ErrorToJson(e);
    GetFirst(j.members, "status", 0);
    GetFirst(j.members, "kind", 1);
    GetFirst(j.members, "message", 2);
    GetFirst(PayloadToJson(p).members, "error", 0);
    KindTagRoundTrip(e.kind);
  }

  /** `impl IntoResponse for ApiError`: the envelope is normalised and
      serialised (which cannot fail), the status is converted with `.expect`
      (a panic outside 100..=999) and the JSON content type is set. */
  function IntoResponse(e: ApiError): (r: Result<Response, Panic>)
    ensures r.Err? <==> !IsStatusCode(e.status as int)
    ensures r.Ok? ==> r.value.status == e.status as int && r.value.headers == JsonContentType
  {
    var payload := NormalizePayload(ApiErrorPayload(e));
    var body := PayloadToJson(payload);
    if IsStatusCode(e.status as int) then
      Ok(Response(e.status as int, JsonContentType, body))
    else
      Err(Panic("invalid status code in api error"))
  }

  /** The body of an error response decodes to the error with its status and
      kind untouched and its message trimmed. */
  lemma IntoResponseBody(e: ApiError)
    requires IsStatusCode(e.status as int)
    ensures PayloadFromJson(IntoResponse(e).value.body)
         == Some(ApiErrorPayload(ApiError(e.status, e.kind, Trim(e.message))))
  {
    PayloadRoundTrip(NormalizePayload(ApiErrorPayload(e)));
  }

  /** Normalising before the conversion changes nothing: the conversion
      already normalises, and trimming is idempotent. */
  lemma IntoResponseNormalized(e: ApiError)
    ensures IntoResponse(Normalize(e)) == IntoResponse(e)
  {
    TrimIdempotent(e.message);
  }

  /** The error the pipeline builds for a stage failure. */
  function BadRequest(kind: ApiErrorKind, message: string): ApiError {
    ApiError(400, kind, message)
  }

  /** `status` agrees with the class of the kind, for the pipeline's errors. */
  predicate StatusMatchesKind(e: ApiError) {
    ApiErrorValid(e) && (e.kind == Internal <==> 500 <= e.status <= 599)
  }
}
