/** The parts of the HTTP layer (the `http` and `axum` crates) that the core
    touches: methods, request heads and bodies, responses, status-code
    conversion and panics. */
module Http {
  import opened Wrappers
  import opened JsonValues
  import opened Mime

  newtype byte = x: int | 0 <= x < 256

  /** `http::Method`: the nine standard methods and extension methods. */
  datatype Method =
    | HEAD | GET | POST | PUT | PATCH | DELETE | OPTIONS | CONNECT | TRACE
    | Extension(token: string)

  /** `Method::as_str`. */
  function AsStr(m: Method): string {
    match m
    case HEAD => "HEAD"
    case GET => "GET"
    case POST => "POST"
    case PUT => "PUT"
    case PATCH => "PATCH"
    case DELETE => "DELETE"
    case OPTIONS => "OPTIONS"
    case CONNECT => "CONNECT"
    case TRACE => "TRACE"
    case Extension(t) => t
  }

  /** The names of the nine standard methods, which `Method::from_bytes`
      turns into their own variants. */
  const StandardNames: seq<string> := ["HEAD", "GET", "POST", "PUT", "PATCH", "DELETE", "OPTIONS", "CONNECT", "TRACE"]

  /** The values an `http::Method` can hold: an extension method is a
      non-empty token that is not a standard name. */
  predicate ValidMethod(m: Method) {
    m.Extension? ==> IsToken(m.token) && m.token !in StandardNames
  }

  /** Valid methods are equal exactly when their names are, so no extension
      method stands for a standard one. */
  lemma MethodByName(a: Method, b: Method)
    requires ValidMethod(a) && ValidMethod(b)
    ensures a == b <==> AsStr(a) == AsStr(b)
  {
  }

  /** A Rust panic, with its message: the program stops instead of returning. */
  datatype Panic = Panic(message: string)

  type HeaderValue = seq<byte>

  /** `http::request::Parts`: the method, the query part of the URI, the
      headers (names in lower case, in arrival order) and the route's captured
      path parameters, which axum keeps in the request extensions. */
  datatype Parts = Parts(
    httpMethod: Method,
    query: Option<string>,
    headers: seq<(string, HeaderValue)>,
    pathParams: seq<(string, string)>)

  /** `HeaderMap::get`: the first value stored under the name. */
  function HeaderGet(headers: seq<(string, HeaderValue)>, name: string): (r: Option<HeaderValue>)
    ensures r.Some? <==> exists i :: 0 <= i < |headers| && headers[i].0 == name
    ensures r.Some? ==> exists i :: 0 <= i < |headers| && headers[i] == (name, r.value)
                                  && forall j :: 0 <= j < i ==> headers[j].0 != name
  {
    if headers == [] then None
    else if headers[0].0 == name then Some(headers[0].1)
    else
      var r := HeaderGet(headers[1..], name);
      assert forall i :: 1 <= i < |headers| ==> headers[i] == headers[1..][i - 1];
      assert r.Some? ==> exists i :: 0 <= i < |headers| && headers[i] == (name, r.value)
                                   && forall j :: 0 <= j < i ==> headers[j].0 != name by {
        if r.Some? {
          var i :| 0 <= i < |headers[1..]| && headers[1..][i] == (name, r.value)
                   && forall j :: 0 <= j < i ==> headers[1..][j].0 != name;
          assert headers[i + 1] == (name, r.value);
          assert forall j :: 1 <= j < i + 1 ==> headers[j].0 != name;
        }
      }
      r
  }

  /** Whatever follows, the value of the first header stored under the name
      is the one read. */
  lemma {:induction false} HeaderGetFirst(headers: seq<(string, HeaderValue)>, name: string, k: nat)
    requires k < |headers| && headers[k].0 == name
    requires forall j :: 0 <= j < k ==> headers[j].0 != name
    ensures HeaderGet(headers, name) == Some(headers[k].1)
  {
    if k > 0 {
      HeaderGetFirst(headers[1..], name, k - 1);
    }
  }

  predicate IsVisibleAscii(b: byte) {
    b == 9 || (32 <= b && b < 127)
  }

  /** `HeaderValue::to_str`: reads each byte as a character, failing on any
      byte that is not visible ASCII or a tab. */
  function HeaderToStr(v: HeaderValue): Option<string> {
    if v == [] then Some([])
    else if !IsVisibleAscii(v[0]) then None
    else match HeaderToStr(v[1..])
      case None => None
      case Some(t) => Some([v[0] as int as char] + t)
  }

  /** It succeeds exactly when every byte is visible ASCII (or a tab), and
      then gives one character per byte, of the same code. */
  lemma {:induction false} HeaderToStrSpec(v: HeaderValue)
    ensures HeaderToStr(v).Some? <==> forall i :: 0 <= i < |v| ==> IsVisibleAscii(v[i])
    ensures HeaderToStr(v).Some? ==>
      && |HeaderToStr(v).value| == |v|
      && forall i :: 0 <= i < |v| ==> HeaderToStr(v).value[i] as int == v[i] as int
  {
    if v != [] {
      HeaderToStrSpec(v[1..]);
      assert forall i :: 1 <= i < |v| ==> v[i] == v[1..][i - 1];
    }
  }

  /** The bytes of a string of ASCII characters. */
  function AsciiBytes(s: string): (v: HeaderValue)
    requires forall i :: 0 <= i < |s| ==> s[i] as int < 128
    ensures |v| == |s| && forall i :: 0 <= i < |s| ==> v[i] as int == s[i] as int
  {
    if s == [] then [] else [s[0] as int as byte] + AsciiBytes(s[1..])
  }

  /** A header written from visible ASCII text reads back as that text. */
  lemma {:induction false} HeaderToStrAscii(s: string)
    requires forall i :: 0 <= i < |s| ==> s[i] == '\t' || (' ' <= s[i] <= '~')
    ensures HeaderToStr(AsciiBytes(s)) == Some(s)
  {
    if s != [] {
      var v := AsciiBytes(s);
      assert v[1..] == AsciiBytes(s[1..]);
      HeaderToStrAscii(s[1..]);
      assert [v[0] as int as char] == [s[0]];
      assert s == [s[0]] + s[1..];
    }
  }

  /** A request body as the stream axum delivers: data chunks in order, then
      either the end of the stream or a read error. */
  datatype Body = Body(chunks: seq<seq<byte>>, failure: Option<string>)

  datatype Request = Request(parts: Parts, body: Body)

  /** A response: status, headers, and the JSON document the body encodes. */
  datatype Response = Response(status: int, headers: seq<(string, string)>, body: Json)

  /** `Response::new` starts with status 200 OK. */
  const DefaultStatus: int := 200

  /** The single header both response builders insert. */
  const JsonContentType: seq<(string, string)> := [("content-type", "application/json")]

  /** `StatusCode::try_from(u16)` succeeds exactly for three-digit codes. */
  predicate IsStatusCode(n: int) {
    100 <= n <= 999
  }
}
