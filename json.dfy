/** The `serde_json::Value` data model, with objects kept as insertion-ordered
    member lists (the order in which members were first set, which is how
    serde_json's `preserve_order` feature keeps them), together with
    the indexing operations the registry uses (`value[key]` for reading and
    `value[key] = x` for writing) and the JSON string encoding that
    `serde_json::to_string` applies to a string. */
module JsonValues {
  import opened Wrappers
  import opened Entries

  datatype Json =
    | JNull
    | JBool(b: bool)
    | JNumber(n: int)
    | JString(s: string)
    | JArray(items: seq<Json>)
    | JObject(members: seq<(string, Json)>)

  type Members = seq<(string, Json)>

  function Keys(ms: Members): (ks: seq<string>)
    ensures |ks| == |ms| && forall i :: 0 <= i < |ms| ==> ks[i] == ms[i].0
  {
    if ms == [] then [] else [ms[0].0] + Keys(ms[1..])
  }

  predicate DistinctKeys(ms: Members) {
    forall i, j :: 0 <= i < j < |ms| ==> ms[i].0 != ms[j].0
  }

  function Member(ms: Members, key: string): Option<Json> {
    match FindKey(ms, key)
    case None => None
    case Some(k) => Some(ms[k].1)
  }

  /** `value[key]`: the member of an object, and `Null` when the member is
      missing or when the value is not an object at all. */
  function Get(v: Json, key: string): Json {
    if v.JObject? then
      match Member(v.members, key)
      case None => JNull
      case Some(x) => x
    else JNull
  }

  /** Reading the first member with the name. */
  lemma GetFirst(ms: Members, key: string, k: nat)
    requires k < |ms| && ms[k].0 == key
    requires forall j :: 0 <= j < k ==> ms[j].0 != key
    ensures Get(JObject(ms), key) == ms[k].1
  {
    FindKeyFirst(ms, key, k);
  }

  /** `value[key] = x` on an object: a member already present keeps its place
      and takes the new value, otherwise the member is appended. */
  function Insert(ms: Members, key: string, x: Json): (r: Members)
    ensures FindKey(ms, key).Some? ==> r == ms[FindKey(ms, key).value := (key, x)]
    ensures FindKey(ms, key).None? ==> r == ms + [(key, x)]
  {
    match FindKey(ms, key)
    case None => ms + [(key, x)]
    case Some(k) => ms[k := (key, x)]
  }

  lemma MemberInsertSame(ms: Members, key: string, x: Json)
    ensures Member(Insert(ms, key, x), key) == Some(x)
  {
    var r := Insert(ms, key, x);
    match FindKey(ms, key)
    case None =>
      FindKeyFirst(r, key, |ms|);
    case Some(k) =>
      FindKeyFirst(r, key, k);
  }

  lemma MemberInsertOther(ms: Members, key: string, x: Json, other: string)
    requires other != key
    ensures Member(Insert(ms, key, x), other) == Member(ms, other)
  {
    var r := Insert(ms, key, x);
    match FindKey(ms, other)
    case None =>
      assert forall j :: 0 <= j < |r| ==> r[j].0 != other;
    case Some(k) =>
      FindKeyFirst(r, other, k);
  }

  /** Writing a member never moves a key already present. */
  lemma FindKeyInsertPresent(ms: Members, key: string, x: Json, other: string)
    requires FindKey(ms, other).Some?
    ensures FindKey(Insert(ms, key, x), other) == FindKey(ms, other)
  {
    var q := FindKey(ms, other).value;
    if FindKey(ms, key).Some? {
      SameKeysAfterInsert(ms, key, x);
      FindKeyFirst(Insert(ms, key, x), other, q);
    } else {
      FindKeyAppendOther(ms, (key, x), other);
    }
  }

  /** Writing a member keeps the order of the keys already present, appends a
      new key at the end, and keeps the keys distinct. */
  lemma KeysInsert(ms: Members, key: string, x: Json)
    ensures Keys(Insert(ms, key, x)) == if key in Keys(ms) then Keys(ms) else Keys(ms) + [key]
    ensures DistinctKeys(ms) ==> DistinctKeys(Insert(ms, key, x))
  {
    if key in Keys(ms) {
      KeysInsertPresent(ms, key, x);
    } else {
      KeysInsertAbsent(ms, key, x);
    }
  }

  lemma KeysInsertPresent(ms: Members, key: string, x: Json)
    requires key in Keys(ms)
    ensures Keys(Insert(ms, key, x)) == Keys(ms)
    ensures DistinctKeys(ms) ==> DistinctKeys(Insert(ms, key, x))
  {
    var ks := Keys(ms);
    var i :| 0 <= i < |ks| && ks[i] == key;
    assert ms[i].0 == key;
    SameKeysAfterInsert(ms, key, x);
    SameKeys(Insert(ms, key, x), ms);
  }

  /** Member lists that agree key by key have the same keys. */
  lemma SameKeys(a: Members, b: Members)
    requires |a| == |b| && forall j :: 0 <= j < |a| ==> a[j].0 == b[j].0
    ensures Keys(a) == Keys(b)
  {
    var ka, kb := Keys(a), Keys(b);
    assert forall j :: 0 <= j < |a| ==> ka[j] == kb[j];
  }

  /** Writing a key already present changes no key. */
  lemma SameKeysAfterInsert(ms: Members, key: string, x: Json)
    requires FindKey(ms, key).Some?
    ensures |Insert(ms, key, x)| == |ms|
    ensures forall j :: 0 <= j < |ms| ==> Insert(ms, key, x)[j].0 == ms[j].0
  {
  }

  lemma KeysInsertAbsent(ms: Members, key: string, x: Json)
    requires key !in Keys(ms)
    ensures Keys(Insert(ms, key, x)) == Keys(ms) + [key]
    ensures DistinctKeys(ms) ==> DistinctKeys(Insert(ms, key, x))
  {
    assert forall j :: 0 <= j < |ms| ==> ms[j].0 != key by {
      forall j | 0 <= j < |ms|
        ensures ms[j].0 != key
      {
        assert Keys(ms)[j] == ms[j].0;
      }
    }
    var r := ms + [(key, x)];
    assert Insert(ms, key, x) == r;
    var kr, km := Keys(r), Keys(ms) + [key];
    assert forall j :: 0 <= j < |r| ==> kr[j] == km[j];
  }

  function HexDigit(n: nat): char
    requires n < 16
  {
    "0123456789abcdef"[n]
  }

  function HexValue(c: char): Option<nat> {
    if '0' <= c <= '9' then Some(c as int - '0' as int)
    else if 'a' <= c <= 'f' then Some(c as int - 'a' as int + 10)
    else if 'A' <= c <= 'F' then Some(c as int - 'A' as int + 10)
    else None
  }

  /** serde_json's escape of one character inside a string literal: the two
      characters that must be escaped, the five short control escapes, the
      other control characters as `\u00XX` with lower-case hexadecimal
      digits, and every other character as itself. */
  function EscapeChar(c: char): string {
    if c == '"' then "\\\""
    else if c == '\\' then "\\\\"
    else if c as int == 0x08 then "\\b"
    else if c as int == 0x0C then "\\f"
    else if c == '\n' then "\\n"
    else if c == '\r' then "\\r"
    else if c == '\t' then "\\t"
    else if c as int < 0x20 then "\\u00" + [HexDigit(c as int / 16), HexDigit(c as int % 16)]
    else [c]
  }

  function Escape(s: string): string {
    if s == [] then [] else EscapeChar(s[0]) + Escape(s[1..])
  }

  /** `serde_json::to_string(&json!(s))`: the JSON string literal for `s`. */
  function Quote(s: string): string {
    "\"" + Escape(s) + "\""
  }

  /** Decoding of the body of a JSON string literal (RFC 8259, section 7),
      for code points below U+10000 written with `\u`. */
  function Unescape(s: string): Option<string> {
    if s == [] then Some([])
    else if s[0] == '\\' then
      if |s| < 2 then None
      else
        var e := s[1];
        if e == 'u' then
          if |s| < 6 then None
          else
            match (HexValue(s[2]), HexValue(s[3]), HexValue(s[4]), HexValue(s[5]))
            case (Some(a), Some(b), Some(c), Some(d)) =>
              var v := ((a * 16 + b) * 16 + c) * 16 + d;
              if 0xD800 <= v < 0xE000 then None
              else Prepend(v as char, Unescape(s[6..]))
            case _ => None
        else
          match ShortEscape(e)
          case None => None
          case Some(c) => Prepend(c, Unescape(s[2..]))
    else if s[0] == '"' || s[0] as int < 0x20 then None
    else Prepend(s[0], Unescape(s[1..]))
  }

  /** The character a two-character escape `\e` stands for. */
  function ShortEscape(e: char): Option<char> {
    if e == '"' then Some('"')
    else if e == '\\' then Some('\\')
    else if e == '/' then Some('/')
    else if e == 'b' then Some(8 as char)
    else if e == 'f' then Some(12 as char)
    else if e == 'n' then Some('\n')
    else if e == 'r' then Some('\r')
    else if e == 't' then Some('\t')
    else None
  }

  function Prepend(c: char, r: Option<string>): Option<string> {
    match r
    case None => None
    case Some(t) => Some([c] + t)
  }

  lemma UnescapeEscapeChar(c: char, rest: string)
    ensures Unescape(EscapeChar(c) + rest) == Prepend(c, Unescape(rest))
  {
    if c == '"' || c == '\\' || c as int == 0x08 || c as int == 0x0C || c == '\n' || c == '\r' || c == '\t' {
      UnescapeShortEscape(c, rest);
    } else if c as int < 0x20 {
      UnescapeUnicodeEscape(c, rest);
    } else {
      var s := EscapeChar(c) + rest;
      assert s[0] == c && s[1..] == rest;
    }
  }

  lemma UnescapeShortEscape(c: char, rest: string)
    requires c == '"' || c == '\\' || c as int == 0x08 || c as int == 0x0C || c == '\n' || c == '\r' || c == '\t'
    ensures Unescape(EscapeChar(c) + rest) == Prepend(c, Unescape(rest))
  {
    var s := EscapeChar(c) + rest;
    assert |EscapeChar(c)| == 2 && s[0] == '\\' && s[1] == EscapeChar(c)[1];
    assert s[2..] == rest;
  }

  lemma UnescapeUnicodeEscape(c: char, rest: string)
    requires c as int < 0x20
    requires !(c as int == 0x08 || c as int == 0x0C || c == '\n' || c == '\r' || c == '\t')
    ensures Unescape(EscapeChar(c) + rest) == Prepend(c, Unescape(rest))
  {
    var n := c as int;
    var s := EscapeChar(c) + rest;
    assert EscapeChar(c) == "\\u00" + [HexDigit(n / 16), HexDigit(n % 16)];
    assert s[0] == '\\' && s[1] == 'u' && s[2] == '0' && s[3] == '0';
    assert s[4] == HexDigit(n / 16) && s[5] == HexDigit(n % 16);
    assert HexValue(s[4]) == Some(n / 16) && HexValue(s[5]) == Some(n % 16);
    assert s[6..] == rest;
  }

  /** The string literal serde_json writes decodes back to the string. */
  lemma {:induction false} UnescapeEscape(s: string)
    ensures Unescape(Escape(s)) == Some(s)
  {
    if s != [] {
      UnescapeEscape(s[1..]);
      UnescapeEscapeChar(s[0], Escape(s[1..]));
      assert [s[0]] + s[1..] == s;
    }
  }

  predicate NeedsEscape(c: char) {
    c == '"' || c == '\\' || c as int < 0x20
  }

  /** A string with no quote, backslash or control character is written
      between quotes unchanged. */
  lemma {:induction false} QuotePlain(s: string)
    requires forall i :: 0 <= i < |s| ==> !NeedsEscape(s[i])
    ensures Quote(s) == "\"" + s + "\""
  {
    assert Escape(s) == s by {
      EscapePlain(s);
    }
  }

  lemma {:induction false} EscapePlain(s: string)
    requires forall i :: 0 <= i < |s| ==> !NeedsEscape(s[i])
    ensures Escape(s) == s
  {
    if s != [] {
      EscapePlain(s[1..]);
      assert [s[0]] + s[1..] == s;
    }
  }
}
