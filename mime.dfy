/** The media-type parsing that `is_content_type_json` (src/endpoint.rs) hands
    to the mime crate (version 0.3, reached through `typed_headers::mime::Mime`),
    written as that crate's parser reads the text, character by character:

    - the type is a non-empty run of `tchar` followed by `/`;
    - the subtype is a non-empty run of `tchar`, ended by `;` or by the end
      of the text;
    - after the `;` come the parameters. Spaces (not tabs) before a name are
      skipped. A name is a non-empty run of `tchar` followed by `=`. An
      unquoted value is a run of `tchar` ended by the end of the text, or by
      a `;` when it is not empty. A quoted value runs from `"` to the next `"`
      that is not the first character after it, with any character from space
      upwards except DEL in between; a backslash escapes nothing. After a
      quoted value only spaces may come, then `;` or the end of the text.

    So whitespace before a `;`, a tab after it, an empty parameter (`;;`) and a
    quoted-pair are refused, where the grammar of section 8.3.1 of RFC 9110
    would allow them. Type and subtype are kept in lower case, as the crate
    lower-cases its source text. */
module Mime {
  import opened Wrappers
  import opened Text

  /** `tchar` of section 5.6.2 of RFC 9110. */
  predicate IsTchar(c: char) {
    ('a' <= c <= 'z') || ('A' <= c <= 'Z') || ('0' <= c <= '9')
    || c == '!' || c == '#' || c == '$' || c == '%' || c == '&' || c == '\''
    || c == '*' || c == '+' || c == '-' || c == '.' || c == '^' || c == '_'
    || c == '`' || c == '|' || c == '~'
  }

  predicate IsToken(s: string) {
    |s| > 0 && forall i :: 0 <= i < |s| ==> IsTchar(s[i])
  }

  /** Length of the longest run of `tchar` at the start of `s`. */
  function TokenLen(s: string): (n: nat)
    ensures n <= |s|
    ensures forall i :: 0 <= i < n ==> IsTchar(s[i])
    ensures n < |s| ==> !IsTchar(s[n])
  {
    if s != [] && IsTchar(s[0]) then 1 + TokenLen(s[1..]) else 0
  }

  /** Length of the run of spaces at the start of `s`. */
  function SpaceLen(s: string): (n: nat)
    ensures n <= |s|
    ensures forall i :: 0 <= i < n ==> s[i] == ' '
    ensures n < |s| ==> s[n] != ' '
  {
    if s != [] && s[0] == ' ' then 1 + SpaceLen(s[1..]) else 0
  }

  /** A character a quoted value may hold: space and above, except DEL. */
  predicate IsQuotedChar(c: char) {
    c as int > 31 && c as int != 127
  }

  function Shift(k: nat, r: Option<nat>): Option<nat> {
    match r
    case None => None
    case Some(n) => Some(k + n)
  }

  /** Length up to and including the first `"`, every character before it a
      quoted-value character. */
  function CloseQuote(s: string): (r: Option<nat>)
    ensures r.Some? ==> 1 <= r.value <= |s| && s[r.value - 1] == '"'
  {
    if s == [] then None
    else if s[0] == '"' then Some(1)
    else if IsQuotedChar(s[0]) then Shift(1, CloseQuote(s[1..]))
    else None
  }

  /** Length of a quoted value after its opening quote, up to and including
      the closing one. The first character never closes the value, even when
      it is a `"`. */
  function QuotedLen(s: string): (r: Option<nat>)
    ensures r.Some? ==> 2 <= r.value <= |s| && s[r.value - 1] == '"'
  {
    if s == [] || !IsQuotedChar(s[0]) then None
    else Shift(1, CloseQuote(s[1..]))
  }

  /** The parameters that follow a `;`, as the crate's loop over them reads
      them: `true` when the loop reaches the end of the text. */
  predicate ParamsFrom(s: string)
    decreases |s|, 1
  {
    if s == [] then true
    else if s[0] == ' ' then ParamsFrom(s[1..])
    else
      var n := TokenLen(s);
      0 < n < |s| && s[n] == '=' && ValueFrom(s[n + 1..])
  }

  /** The value of a parameter, after its `=`, and what follows it. */
  predicate ValueFrom(v: string)
    decreases |v|, 0
  {
    if v != [] && v[0] == '"' then
      match QuotedLen(v[1..])
      case None => false
      case Some(q) =>
        var w := v[1 + q..];
        var sp := SpaceLen(w);
        sp == |w| || (w[sp] == ';' && ParamsFrom(w[sp + 1..]))
    else
      var t := TokenLen(v);
      t == |v| || (t > 0 && v[t] == ';' && ParamsFrom(v[t + 1..]))
  }

  /** What may follow the subtype: nothing, or a `;` and parameters. */
  predicate ParametersOk(s: string) {
    s == [] || (s[0] == ';' && ParamsFrom(s[1..]))
  }

  datatype MediaType = MediaType(typ: string, subtype: string)

  /** `Mime::essence_str`: type and subtype without the parameters. */
  function Essence(m: MediaType): string {
    m.typ + "/" + m.subtype
  }

  /** `str::parse::<Mime>`: `None` when the text is not a media type. */
  function ParseMediaType(s: string): Option<MediaType> {
    var t := TokenLen(s);
    if t == 0 || t == |s| || s[t] != '/' then None
    else ParseAfterSlash(s[..t], s[t + 1..])
  }

  /** The subtype and parameters that follow `typ "/"`. */
  function ParseAfterSlash(typ: string, rest: string): Option<MediaType> {
    var st := TokenLen(rest);
    if st == 0 || !ParametersOk(rest[st..]) then None
    else Some(MediaType(LowerAscii(typ), LowerAscii(rest[..st])))
  }

  /** Parameters begin with a semicolon, never with a `tchar`, so the subtype
      ends where they begin. */
  lemma ParametersStart(ps: string)
    requires ParametersOk(ps) && ps != []
    ensures ps[0] == ';' && !IsTchar(ps[0])
  {
  }

  lemma {:induction false} TokenLenConcat(t: string, rest: string)
    requires forall i :: 0 <= i < |t| ==> IsTchar(t[i])
    requires rest == [] || !IsTchar(rest[0])
    ensures TokenLen(t + rest) == |t|
  {
    if t != [] {
      assert (t + rest)[1..] == t[1..] + rest;
      TokenLenConcat(t[1..], rest);
    }
  }

  lemma TypeThenSlash(t: string, rest: string)
    requires IsToken(t)
    ensures ParseMediaType(t + "/" + rest) == ParseAfterSlash(t, rest)
  {
    var s := t + "/" + rest;
    assert s == t + ("/" + rest);
    TokenLenConcat(t, "/" + rest);
    assert s[..|t|] == t && s[|t| + 1..] == rest;
  }

  lemma SubtypeThenParameters(typ: string, st: string, ps: string)
    requires IsToken(st) && ParametersOk(ps)
    ensures ParseAfterSlash(typ, st + ps) == Some(MediaType(LowerAscii(typ), LowerAscii(st)))
  {
    if ps != [] {
      ParametersStart(ps);
    }
    TokenLenConcat(st, ps);
    assert (st + ps)[..|st|] == st && (st + ps)[|st|..] == ps;
  }

  /** The essence is decided by type and subtype alone: any well-formed
      parameters after them are accepted and ignored, and the case of type and
      subtype does not matter. */
  lemma EssenceIgnoresParameters(t: string, st: string, ps: string)
    requires IsToken(t) && IsToken(st) && ParametersOk(ps)
    ensures ParseMediaType(t + "/" + st + ps) == Some(MediaType(LowerAscii(t), LowerAscii(st)))
  {
    assert t + "/" + st + ps == t + "/" + (st + ps);
    TypeThenSlash(t, st + ps);
    SubtypeThenParameters(t, st, ps);
  }

  /** Conversely, when what follows the subtype is not parameters the crate
      reads to the end, the text is not a media type. */
  lemma BadParametersNoMediaType(t: string, st: string, ps: string)
    requires IsToken(t) && IsToken(st)
    requires ps != [] && !IsTchar(ps[0]) && !ParametersOk(ps)
    ensures ParseMediaType(t + "/" + st + ps).None?
  {
    assert t + "/" + st + ps == t + "/" + (st + ps);
    TypeThenSlash(t, st + ps);
    TokenLenConcat(st, ps);
    assert (st + ps)[|st|..] == ps;
  }

  /** One step of the parameter scan: a name ended by `=`, then a value the
      scan reads on from. */
  lemma ParameterStep(p: string, n: nat)
    requires 0 < n < |p| && p[0] != ' ' && TokenLen(p) == n && p[n] == '='
    requires ValueFrom(p[n + 1..])
    ensures ParamsFrom(p)
  {
  }

  /** An unquoted value that is a run of `tchar` is read to the end. */
  lemma TokenValueReads(value: string)
    requires forall i :: 0 <= i < |value| ==> IsTchar(value[i])
    ensures ValueFrom(value)
  {
    assert value + [] == value;
    TokenLenConcat(value, []);
  }

  /** Where the pieces of `name=value` sit when the name is a token. */
  lemma NameValueLayout(name: string, value: string, p: string)
    requires IsToken(name) && p == name + "=" + value
    ensures 0 < |name| < |p| && p[0] != ' ' && p[|name|] == '=' && p[|name| + 1..] == value
    ensures TokenLen(p) == |name|
  {
    var q := "=" + value;
    assert p == name + q;
    assert p[|name|..] == q;
    assert q[1..] == value;
    TokenLenConcat(name, q);
  }

  /** A parameter `name=value` with a token name and an unquoted token value
      is read to the end. */
  lemma TokenParameterReads(name: string, value: string)
    requires IsToken(name) && forall i :: 0 <= i < |value| ==> IsTchar(value[i])
    ensures ParamsFrom(name + "=" + value)
  {
    var p := name + "=" + value;
    NameValueLayout(name, value, p);
    TokenValueReads(value);
    ParameterStep(p, |name|);
  }

  /** A `;`, spaces, and a parameter whose name and unquoted value are
      tokens, such as `; charset=utf-8` in `application/json; charset=utf-8`,
      are read to the end: the spaces after the `;` are skipped. */
  lemma SpacedTokenParameterAccepted(sp: string, name: string, value: string)
    requires forall i :: 0 <= i < |sp| ==> sp[i] == ' '
    requires IsToken(name) && forall i :: 0 <= i < |value| ==> IsTchar(value[i])
    ensures ParametersOk(";" + sp + name + "=" + value)
  {
    var p := name + "=" + value;
    assert ";" + sp + name + "=" + value == ";" + (sp + p);
    TokenParameterReads(name, value);
    SpacesThenParameters(sp, p);
    SemicolonThenParameters(sp + p);
  }

  /** The usual charset parameter is accepted. */
  lemma CharsetParameterAccepted(s: string)
    requires s == "; charset=utf-8"
    ensures ParametersOk(s)
  {
    assert s == ";" + " " + "charset" + "=" + "utf-8";
    SpacedTokenParameterAccepted(" ", "charset", "utf-8");
  }

  /** Spaces before a parameter are skipped. */
  lemma {:induction false} SpacesThenParameters(sp: string, p: string)
    requires forall i :: 0 <= i < |sp| ==> sp[i] == ' '
    requires ParamsFrom(p)
    ensures ParamsFrom(sp + p)
  {
    if sp == [] {
      assert sp + p == p;
    } else {
      assert (sp + p)[0] == ' ' && (sp + p)[1..] == sp[1..] + p;
      SpacesThenParameters(sp[1..], p);
    }
  }

  lemma SemicolonThenParameters(p: string)
    requires ParamsFrom(p)
    ensures ParametersOk(";" + p)
  {
    assert (";" + p)[1..] == p;
  }

  /** Whitespace before the `;` is refused, whatever follows. */
  lemma SpaceBeforeSemicolonRefused(s: string)
    requires s != [] && IsWhitespace(s[0])
    ensures !ParametersOk(s)
  {
  }

  /** After the `;` and its spaces a parameter name must begin: any other
      character is refused. */
  lemma NoParameterNameRefused(s: string)
    requires |s| >= 2 && s[0] == ';' && s[1] != ' ' && !IsTchar(s[1])
    ensures !ParametersOk(s)
  {
    assert TokenLen(s[1..]) == 0;
  }

  /** A tab after the `;` is refused: only spaces are skipped there. */
  lemma TabAfterSemicolonRefused(s: string)
    requires |s| >= 2 && s[0] == ';' && s[1] == '\t'
    ensures !ParametersOk(s)
  {
    NoParameterNameRefused(s);
  }

  /** An empty parameter, `;;`, is refused. */
  lemma EmptyParameterRefused(s: string)
    requires |s| >= 2 && s[0] == ';' && s[1] == ';'
    ensures !ParametersOk(s)
  {
    NoParameterNameRefused(s);
  }

  /** A backslash escapes nothing in a quoted value: in `a="x\"y"` the value
      ends at the escaped quote, and the `y` after it is refused. */
  lemma QuotedPairRefused(s: string)
    requires s == ";a=\"x\\\"y\""
    ensures !ParametersOk(s)
  {
    var p := s[1..];
    QuotedPairPieces(p);
    JunkAfterQuotedValueRefused(p, 1, 3, p[6..]);
  }

  /** How the parameter scan cuts `a="x\"y"`: the name `a`, then a quoted
      value of three characters after its opening quote, then `y`. */
  lemma QuotedPairPieces(p: string)
    requires p == "a=\"x\\\"y\""
    ensures TokenLen(p) == 1 && p[1] == '=' && p[2] == '"'
    ensures QuotedLen(p[3..]) == Some(3) && SpaceLen(p[6..]) == 0 && p[6] == 'y'
  {
    assert p[1..] == "=" + "\"x\\\"y\"";
    assert p[3..] == "x\\\"y\"";
    assert p[6..] == "y\"";
    assert QuotedLen("x\\\"y\"") == Some(3);
  }

  /** A quoted value followed by anything but spaces and then `;` or the end
      of the text ends the parameter scan with a refusal. */
  lemma JunkAfterQuotedValueRefused(p: string, n: nat, q: nat, w: string)
    requires 0 < n && n + 2 <= |p| && p[0] != ' ' && TokenLen(p) == n && p[n] == '=' && p[n + 1] == '"'
    requires QuotedLen(p[n + 2..]) == Some(q) && w == p[n + 2 + q..]
    requires SpaceLen(w) < |w| && w[SpaceLen(w)] != ';'
    ensures !ParamsFrom(p)
  {
    var v := p[n + 1..];
    assert v[0] == '"' && v[1..] == p[n + 2..] && v[1 + q..] == w;
    JunkAfterQuotedRefused(v, q, w);
  }

  lemma JunkAfterQuotedRefused(v: string, q: nat, w: string)
    requires v != [] && v[0] == '"' && QuotedLen(v[1..]) == Some(q) && w == v[1 + q..]
    requires SpaceLen(w) < |w| && w[SpaceLen(w)] != ';'
    ensures !ValueFrom(v)
  {
  }

  /** Without a slash after the type there is no media type. */
  lemma NoSlashNoMediaType(s: string)
    requires forall i :: 0 <= i < |s| ==> s[i] != '/'
    ensures ParseMediaType(s).None?
  {
  }
}
