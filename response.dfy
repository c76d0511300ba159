/** `src/response.rs`: `into_json_response`, turning a serialisable value into
    a JSON response, with the 500 fallback when serialisation fails. */
module Responses {
  import opened Wrappers
  import opened Text
  import opened JsonValues
  import opened Http
  import opened ApiErrors

  /** The error both response builders return when the output cannot be
      serialised. */
  const SerializeFailure: ApiError := ApiError(500, Internal, "error serializing response")

  /** On success a fresh response (status 200) carries the serialised value
      with the JSON content type; on failure the answer is the error response
      of `SerializeFailure`, a 500 with the usual envelope. It never panics. */
  function IntoJsonResponse<T>(v: T, toJson: T -> Result<Json, string>): (r: Result<Response, Panic>)
    ensures r.Ok?
    ensures toJson(v).Ok? ==> r.value == Response(200, JsonContentType, toJson(v).value)
    ensures toJson(v).Err? ==> r == IntoResponse(SerializeFailure)
  {
    match toJson(v)
    case Err(_) => IntoResponse(SerializeFailure)
    case Ok(body) => Ok(Response(DefaultStatus, JsonContentType, body))
  }

  /** What a client reads from the fallback: status 500 and an envelope whose
      error has kind `INTERNAL` and the fixed message. */
  lemma SerializeFailureResponse()
    ensures IntoResponse(SerializeFailure).Ok?
    ensures IntoResponse(SerializeFailure).value.status == 500
    ensures PayloadFromJson(IntoResponse(SerializeFailure).value.body)
         == Some(ApiErrorPayload(SerializeFailure))
  {
    var m := SerializeFailure.message;
    TrimStartOfTrimmed(m);
    TrimEndOfTrimmed(m);
    IntoResponseBody(SerializeFailure);
  }
}
