/** `src/ts.rs`: `inline::<T>()` takes the inline TypeScript text of a type
    and, for every generic and then every dependency the type's visitors
    collected, rewrites each occurrence of the declaration's name by the
    declaration's own inline text.

    The rewrite is `Regex::new("([<,:]?)(\s*)NAME(\s*)([,><])").replace_all`
    with a replacer that puts the four groups back around the new text; the
    regex is modelled as an explicit leftmost-first scanner. The visitors'
    maps are `HashMap`s, whose iteration order is not fixed: it is a
    parameter here. The inline texts themselves come from `ts_rs`. */
module TsInline {
  import opened Wrappers
  import opened Text

  // ---------------------------------------------------------------------
  // The regex `([<,:]?)(\s*)NAME(\s*)([,><])`

  /** `[<,:]` */
  predicate IsLead(c: char) {
    c == '<' || c == ',' || c == ':'
  }

  /** `[,><]` */
  predicate IsDelim(c: char) {
    c == ',' || c == '>' || c == '<'
  }

  /** The end of the longest run of `\s` (Unicode White_Space) from `q`. */
  function WsEnd(s: string, q: nat): (e: nat)
    requires q <= |s|
    ensures q <= e <= |s|
    decreases |s| - q
  {
    if q < |s| && IsWhitespace(s[q]) then WsEnd(s, q + 1) else q
  }

  /** The run is whitespace and cannot be extended. */
  lemma {:induction false} WsEndSpec(s: string, q: nat)
    requires q <= |s|
    ensures forall i :: q <= i < WsEnd(s, q) ==> IsWhitespace(s[i])
    ensures WsEnd(s, q) < |s| ==> !IsWhitespace(s[WsEnd(s, q)])
    decreases |s| - q
  {
    if q < |s| && IsWhitespace(s[q]) {
      WsEndSpec(s, q + 1);
    }
  }

  /** `(\s*)([,><])` at `r`, giving the end of the match. No delimiter is
      whitespace, so of all the lengths the greedy `\s*` may try only the
      longest can be followed by the delimiter. */
  function DelimEnd(s: string, r: nat): (e: Option<nat>)
    requires r <= |s|
    ensures e.Some? ==> r < e.value <= |s| && IsDelim(s[e.value - 1])
  {
    var m := WsEnd(s, r);
    if m < |s| && IsDelim(s[m]) then Some(m + 1) else None
  }

  /** Only whitespace lies between `r` and the delimiter. */
  lemma DelimEndSpec(s: string, r: nat)
    requires r <= |s| && DelimEnd(s, r).Some?
    ensures forall i :: r <= i < DelimEnd(s, r).value - 1 ==> IsWhitespace(s[i])
  {
    WsEndSpec(s, r);
  }

  /** `name` occurs at `ns`. */
  predicate NameAt(s: string, name: string, ns: nat) {
    ns + |name| <= |s| && s[ns..ns + |name|] == name
  }

  /** `(\s*)NAME(\s*)([,><])` from `q`, the first `\s*` holding `k`
      characters and giving them back one at a time: the start of the name
      and the end of the match. */
  function TryName(s: string, name: string, q: nat, k: nat): (r: Option<(nat, nat)>)
    requires q + k <= |s|
    ensures r.Some? ==>
      && q <= r.value.0 <= q + k && NameAt(s, name, r.value.0)
      && DelimEnd(s, r.value.0 + |name|) == Some(r.value.1)
    decreases k
  {
    var ns := q + k;
    if NameAt(s, name, ns) && DelimEnd(s, ns + |name|).Some? then
      Some((ns, DelimEnd(s, ns + |name|).value))
    else if k == 0 then None
    else TryName(s, name, q, k - 1)
  }

  /** The rest of the pattern from `q`, the first `\s*` starting greedy. */
  function RestAt(s: string, name: string, q: nat): (r: Option<(nat, nat)>)
    requires q <= |s|
    ensures r.Some? ==>
      && q <= r.value.0 <= WsEnd(s, q) && NameAt(s, name, r.value.0)
      && DelimEnd(s, r.value.0 + |name|) == Some(r.value.1)
  {
    TryName(s, name, q, WsEnd(s, q) - q)
  }

  /** The match of the whole pattern starting at the beginning of `s`, as the
      start of the name and the end of the match; the optional `[<,:]` is
      greedy, so it is tried with the leading character first. */
  function MatchAt(s: string, name: string): (r: Option<(nat, nat)>)
    ensures r.Some? ==>
      && r.value.0 + |name| < r.value.1 <= |s|
      && NameAt(s, name, r.value.0)
      && IsDelim(s[r.value.1 - 1])
  {
    if s != [] && IsLead(s[0]) && RestAt(s, name, 1).Some? then RestAt(s, name, 1)
    else RestAt(s, name, 0)
  }

  /** A match is the optional leading character and whitespace, the name,
      whitespace, and the delimiter: nothing but the name is rewritten. */
  lemma MatchShape(s: string, name: string)
    requires MatchAt(s, name).Some?
    ensures var (ns, e) := MatchAt(s, name).value;
      && (forall i :: 0 <= i < ns ==> IsWhitespace(s[i]) || (i == 0 && IsLead(s[0])))
      && (forall i :: ns + |name| <= i < e - 1 ==> IsWhitespace(s[i]))
  {
    var (ns, e) := MatchAt(s, name).value;
    MatchLead(s, name, ns, e);
    MatchTail(s, name, ns, e);
  }

  lemma MatchLead(s: string, name: string, ns: nat, e: nat)
    requires MatchAt(s, name) == Some((ns, e))
    ensures forall i :: 0 <= i < ns ==> IsWhitespace(s[i]) || (i == 0 && IsLead(s[0]))
  {
    if s != [] && IsLead(s[0]) && RestAt(s, name, 1).Some? {
      assert RestAt(s, name, 1) == Some((ns, e));
      WsEndSpec(s, 1);
    } else {
      assert RestAt(s, name, 0) == Some((ns, e));
      WsEndSpec(s, 0);
    }
  }

  lemma MatchTail(s: string, name: string, ns: nat, e: nat)
    requires MatchAt(s, name) == Some((ns, e))
    ensures forall i :: ns + |name| <= i < e - 1 ==> IsWhitespace(s[i])
  {
    var r := if s != [] && IsLead(s[0]) && RestAt(s, name, 1).Some? then 1 else 0;
    assert RestAt(s, name, r) == Some((ns, e));
    DelimEndSpec(s, ns + |name|);
  }

  /** `replace_all`: matches are found left to right without overlapping;
      in each one the name is replaced by `inl` and the leading character,
      both runs of whitespace and the delimiter are kept. */
  function ReplaceAll(s: string, name: string, inl: string): string
    decreases |s|
  {
    if s == [] then []
    else
      match MatchAt(s, name)
      case Some((ns, e)) => s[..ns] + inl + s[ns + |name|..e] + ReplaceAll(s[e..], name, inl)
      case None => [s[0]] + ReplaceAll(s[1..], name, inl)
  }

  /** Cutting the text around an occurrence of the name and gluing it back. */
  lemma Reassemble(s: string, name: string, ns: nat, e: nat)
    requires NameAt(s, name, ns) && ns + |name| <= e <= |s|
    ensures s[..ns] + name + s[ns + |name|..e] + s[e..] == s
  {
    assert s[..ns] + s[ns..ns + |name|] + s[ns + |name|..e] + s[e..] == s;
  }

  /** One step of `replace_all`, at a match or past one character. */
  lemma ReplaceAllStep(s: string, name: string, inl: string)
    requires s != []
    ensures MatchAt(s, name).Some? ==>
      var (ns, e) := MatchAt(s, name).value;
      ReplaceAll(s, name, inl) == s[..ns] + inl + s[ns + |name|..e] + ReplaceAll(s[e..], name, inl)
    ensures MatchAt(s, name).None? ==> ReplaceAll(s, name, inl) == [s[0]] + ReplaceAll(s[1..], name, inl)
  {
  }

  /** Replacing a name by itself changes nothing. */
  lemma {:induction false} ReplaceAllSelf(s: string, name: string)
    ensures ReplaceAll(s, name, name) == s
    decreases |s|
  {
    if s != [] {
      match MatchAt(s, name)
      case Some((ns, e)) =>
        ReplaceAllSelf(s[e..], name);
        SelfAtMatch(s, name, ns, e);
      case None =>
        ReplaceAllSelf(s[1..], name);
        SelfPastChar(s, name);
    }
  }

  lemma SelfAtMatch(s: string, name: string, ns: nat, e: nat)
    requires MatchAt(s, name) == Some((ns, e))
    requires ReplaceAll(s[e..], name, name) == s[e..]
    ensures ReplaceAll(s, name, name) == s
  {
    ReplaceAllStep(s, name, name);
    Reassemble(s, name, ns, e);
  }

  lemma SelfPastChar(s: string, name: string)
    requires s != [] && MatchAt(s, name).None?
    requires ReplaceAll(s[1..], name, name) == s[1..]
    ensures ReplaceAll(s, name, name) == s
  {
    ReplaceAllStep(s, name, name);
    assert [s[0]] + s[1..] == s;
  }

  /** Every match ends with a delimiter: a text with none of `,`, `>`, `<`
      is left as it is, whatever the name. */
  lemma {:induction false} NoDelimiterUnchanged(s: string, name: string, inl: string)
    requires forall i :: 0 <= i < |s| ==> !IsDelim(s[i])
    ensures ReplaceAll(s, name, inl) == s
    decreases |s|
  {
    if s != [] {
      assert MatchAt(s, name).None?;
      NoDelimiterUnchanged(s[1..], name, inl);
      assert [s[0]] + s[1..] == s;
    }
  }

  /** `NAME(\s*)([,><])` at `k`: the name followed by whitespace and a
      delimiter, the only way an occurrence can take part in a match. */
  predicate DelimitedNameAt(s: string, name: string, k: nat) {
    NameAt(s, name, k) && DelimEnd(s, k + |name|).Some?
  }

  lemma {:induction false} WsEndShift(s: string, q: nat)
    requires s != [] && q <= |s| - 1
    ensures WsEnd(s[1..], q) + 1 == WsEnd(s, q + 1)
    decreases |s| - q
  {
    if q < |s| - 1 && IsWhitespace(s[1..][q]) {
      WsEndShift(s, q + 1);
    }
  }

  lemma ShiftDelimitedName(s: string, name: string, k: nat)
    requires s != []
    ensures DelimitedNameAt(s[1..], name, k) ==> DelimitedNameAt(s, name, k + 1)
  {
    if NameAt(s[1..], name, k) {
      assert s[1..][k..k + |name|] == s[k + 1..k + 1 + |name|];
      WsEndShift(s, k + |name|);
    }
  }

  /** A match always holds a delimited occurrence of the name. */
  lemma MatchIsDelimited(s: string, name: string)
    requires MatchAt(s, name).Some?
    ensures DelimitedNameAt(s, name, MatchAt(s, name).value.0)
  {
  }

  /** An occurrence of the name that is not followed by whitespace and a
      delimiter, at the end of the text or anywhere else, is left as it is:
      when no occurrence is delimited, the text comes back unchanged. */
  lemma {:induction false} NoDelimitedNameUnchanged(s: string, name: string, inl: string)
    requires forall k: nat :: !DelimitedNameAt(s, name, k)
    ensures ReplaceAll(s, name, inl) == s
    decreases |s|
  {
    if s != [] {
      if MatchAt(s, name).Some? {
        MatchIsDelimited(s, name);
        assert false;
      }
      forall k: nat
        ensures !DelimitedNameAt(s[1..], name, k)
      {
        ShiftDelimitedName(s, name, k);
      }
      NoDelimitedNameUnchanged(s[1..], name, inl);
      assert [s[0]] + s[1..] == s;
    }
  }

  /** The end of a run of `n` whitespace characters from `q` that nothing
      extends. */
  lemma {:induction false} WsEndRun(s: string, q: nat, n: nat)
    requires q + n <= |s|
    requires forall i :: q <= i < q + n ==> IsWhitespace(s[i])
    requires q + n == |s| || !IsWhitespace(s[q + n])
    ensures WsEnd(s, q) == q + n
    decreases n
  {
    if n > 0 {
      WsEndRun(s, q + 1, n - 1);
    }
  }

  lemma DelimNotWhitespace(c: char)
    requires IsDelim(c)
    ensures !IsWhitespace(c)
  {
  }

  /** The rest of the pattern from `q` when whitespace up to `ns`, the name,
      whitespace up to `m` and a delimiter at `m` are there. */
  lemma RestAtDelimited(s: string, name: string, q: nat, ns: nat, m: nat)
    requires q <= ns && NameAt(s, name, ns) && name != [] && !IsWhitespace(name[0])
    requires forall i :: q <= i < ns ==> IsWhitespace(s[i])
    requires ns + |name| <= m < |s| && IsDelim(s[m])
    requires forall i :: ns + |name| <= i < m ==> IsWhitespace(s[i])
    ensures RestAt(s, name, q) == Some((ns, m + 1))
  {
    assert s[ns] == name[0];
    WsEndRun(s, q, ns - q);
    DelimNotWhitespace(s[m]);
    WsEndRun(s, ns + |name|, m - ns - |name|);
    assert DelimEnd(s, ns + |name|) == Some(m + 1);
  }

  /** The match found at the start of `s` when an optional leading character
      (`q` is 0 or 1), whitespace up to `ns`, the name, whitespace up to `m`
      and a delimiter at `m` are there. */
  lemma MatchAtDelimited(s: string, name: string, q: nat, ns: nat, m: nat)
    requires q <= ns && q <= 1 && (q == 1 ==> s != [] && IsLead(s[0]))
    requires NameAt(s, name, ns) && name != [] && !IsWhitespace(name[0]) && !IsLead(name[0])
    requires forall i :: q <= i < ns ==> IsWhitespace(s[i])
    requires ns + |name| <= m < |s| && IsDelim(s[m])
    requires forall i :: ns + |name| <= i < m ==> IsWhitespace(s[i])
    ensures MatchAt(s, name) == Some((ns, m + 1))
  {
    RestAtDelimited(s, name, q, ns, m);
    if q == 0 {
      assert s[ns] == name[0];
      assert IsWhitespace(s[0]) || s[0] == name[0];
      assert !IsLead(s[0]);
    }
  }

  /** Where the pieces of `s == lead + w1 + name + w2 + [d] + rest` sit: the
      name at `ns`, the delimiter at `m`. */
  lemma OccurrenceLayout(lead: string, w1: string, name: string, w2: string, d: char, rest: string,
                         s: string, ns: nat, m: nat)
    requires lead == [] || (|lead| == 1 && IsLead(lead[0]))
    requires forall i :: 0 <= i < |w1| ==> IsWhitespace(w1[i])
    requires forall i :: 0 <= i < |w2| ==> IsWhitespace(w2[i])
    requires IsDelim(d)
    requires s == lead + w1 + name + w2 + [d] + rest
    requires ns == |lead| + |w1| && m == ns + |name| + |w2|
    ensures m < |s| && s[..ns] == lead + w1 && NameAt(s, name, ns)
    ensures s[ns + |name|..m + 1] == w2 + [d] && s[m + 1..] == rest
    ensures |lead| == 1 ==> s != [] && IsLead(s[0])
    ensures IsDelim(s[m])
    ensures forall i :: |lead| <= i < ns ==> IsWhitespace(s[i])
    ensures forall i :: ns + |name| <= i < m ==> IsWhitespace(s[i])
  {
    assert s == (lead + w1) + (name + ((w2 + [d]) + rest));
    assert s[..ns] == lead + w1;
    assert s[ns..] == name + ((w2 + [d]) + rest);
    assert s[ns..ns + |name|] == name;
    assert s[ns + |name|..] == (w2 + [d]) + rest;
    assert s[ns + |name|..m + 1] == w2 + [d];
    assert s[m + 1..] == rest;
    forall i | |lead| <= i < ns
      ensures IsWhitespace(s[i])
    {
      assert s[i] == (lead + w1)[i] == w1[i - |lead|];
    }
    forall i | ns + |name| <= i < m
      ensures IsWhitespace(s[i])
    {
      assert s[i] == (w2 + [d])[i - ns - |name|] == w2[i - ns - |name|];
    }
  }

  /** The rewriting step at a match, with the text before the match and the
      groups after the name named by the caller. */
  lemma RewriteAtMatch(s: string, name: string, inl: string, ns: nat, e: nat,
                       before: string, after: string, rest: string)
    requires s != [] && MatchAt(s, name) == Some((ns, e))
    requires ns + |name| <= e <= |s|
    requires s[..ns] == before && s[ns + |name|..e] == after && s[e..] == rest
    ensures ReplaceAll(s, name, inl) == before + inl + after + ReplaceAll(rest, name, inl)
  {
    ReplaceAllStep(s, name, inl);
  }

  /** A delimited occurrence at the start of the text, with the optional
      leading character and whitespace before it, is rewritten, and the scan
      goes on after the delimiter. The name must not begin with whitespace or
      a leading character, which the pattern would otherwise take first. */
  lemma DelimitedNameRewritten(lead: string, w1: string, name: string, w2: string, d: char, rest: string, inl: string)
    requires lead == [] || (|lead| == 1 && IsLead(lead[0]))
    requires forall i :: 0 <= i < |w1| ==> IsWhitespace(w1[i])
    requires forall i :: 0 <= i < |w2| ==> IsWhitespace(w2[i])
    requires name != [] && !IsWhitespace(name[0]) && !IsLead(name[0])
    requires IsDelim(d)
    ensures ReplaceAll(lead + w1 + name + w2 + [d] + rest, name, inl)
         == lead + w1 + inl + (w2 + [d]) + ReplaceAll(rest, name, inl)
  {
    var s := lead + w1 + name + w2 + [d] + rest;
    var ns := |lead| + |w1|;
    var e := ns + |name| + |w2| + 1;
    OccurrenceLayout(lead, w1, name, w2, d, rest, s, ns, e - 1);
    MatchAtDelimited(s, name, |lead|, ns, e - 1);
    RewriteAtMatch(s, name, inl, ns, e, lead + w1, w2 + [d], rest);
  }

  /** A name inside angle brackets is replaced and the brackets are kept. */
  lemma ReplaceInBrackets()
    ensures ReplaceAll("<T>", "T", "string") == "<string>"
  {
    var s := "<T>";
    assert !IsWhitespace(s[1]);
    assert WsEnd(s, 1) == 1;
    assert s[1..2] == "T";
    assert WsEnd(s, 2) == 2;
    assert DelimEnd(s, 2) == Some(3);
    assert MatchAt(s, "T") == Some((1, 3));
    assert s[..1] == "<" && s[2..3] == ">" && s[3..] == [];
  }

  // ---------------------------------------------------------------------
  // The visitors and `inline`

  /** `T::name().split("<").next().unwrap()`: the name up to its first `<`. */
  function BaseName(name: string): (r: string)
    ensures |r| <= |name| && r == name[..|r|]
    ensures '<' !in r
    ensures |r| < |name| ==> name[|r|] == '<'
  {
    if name == [] || name[0] == '<' then []
    else [name[0]] + BaseName(name[1..])
  }

  /** A base name keeps no type arguments, so taking it again changes
      nothing; a name without `<` is its own base name. */
  lemma {:induction false} BaseNameWithoutBracket(name: string)
    requires '<' !in name
    ensures BaseName(name) == name
  {
    if name != [] {
      BaseNameWithoutBracket(name[1..]);
    }
  }

  lemma BaseNameIdempotent(name: string)
    ensures BaseName(BaseName(name)) == BaseName(name)
  {
    BaseNameWithoutBracket(BaseName(name));
  }

  /** `GenericsVisitor`: the declarations met, keyed by base name. */
  class GenericsVisitor {
    var decl: map<string, string>

    /** `GenericsVisitor { decl: Default::default() }` */
    constructor ()
      ensures decl == map[]
    {
      decl := map[];
    }

    /** `visit::<T>()`: records `T`'s inline text under `T`'s base name, a
        later type with the same base name replacing the earlier one. */
    method Visit(typeName: string, inlined: string)
      modifies this
      ensures decl == old(decl)[BaseName(typeName) := inlined]
    {
      decl := decl[BaseName(typeName) := inlined];
    }
  }

  /** `order` is an iteration order of the map: each key once. */
  predicate IsEnumeration(order: seq<string>, decl: map<string, string>) {
    && (forall k :: 0 <= k < |order| ==> order[k] in decl)
    && (forall j, k :: 0 <= j < k < |order| ==> order[j] != order[k])
    && (forall n :: n in decl ==> n in order)
  }

  lemma EnumeratedKey(order: seq<string>, decl: map<string, string>, k: nat)
    requires IsEnumeration(order, decl) && k < |order|
    ensures order[k] in decl
  {
  }

  /** An empty map has only the empty iteration order. */
  lemma EmptyEnumeration(order: seq<string>, decl: map<string, string>)
    requires IsEnumeration(order, decl)
    ensures decl == map[] ==> order == []
  {
    if decl == map[] && order != [] {
      EnumeratedKey(order, decl, 0);
      assert false;
    }
  }

  /** One `replace!` block: the declarations in the given order, each
      rewriting the text left by the previous one, `Array` skipped. */
  function Substitute(target: string, decl: map<string, string>, order: seq<string>): string
    requires forall k :: 0 <= k < |order| ==> order[k] in decl
  {
    if order == [] then target
    else
      var prev := Substitute(target, decl, order[..|order| - 1]);
      var name := order[|order| - 1];
      if name == "Array" then prev else ReplaceAll(prev, name, decl[name])
  }

  /** The text given for `Array` never matters. */
  lemma {:induction false} ArrayNeverSubstituted(target: string, decl: map<string, string>, order: seq<string>, x: string)
    requires forall k :: 0 <= k < |order| ==> order[k] in decl
    ensures Substitute(target, decl["Array" := x], order) == Substitute(target, decl, order)
  {
    if order != [] {
      var init := order[..|order| - 1];
      assert forall k :: 0 <= k < |init| ==> init[k] == order[k];
      ArrayNeverSubstituted(target, decl, init, x);
    }
  }

  /** Declarations whose inline text is their own name leave the text as it
      is. */
  lemma {:induction false} SubstituteSelf(target: string, decl: map<string, string>, order: seq<string>)
    requires forall k :: 0 <= k < |order| ==> order[k] in decl && decl[order[k]] == order[k]
    ensures Substitute(target, decl, order) == target
  {
    if order != [] {
      var init := order[..|order| - 1];
      assert forall k :: 0 <= k < |init| ==> init[k] == order[k];
      SubstituteSelf(target, decl, init);
      ReplaceAllSelf(target, order[|order| - 1]);
    }
  }

  /** The `for (name, inline) in $types.decl.iter()` loop. */
  method Replace(target: string, decl: map<string, string>, order: seq<string>) returns (r: string)
    requires IsEnumeration(order, decl)
    ensures r == Substitute(target, decl, order)
  {
    r := target;
    var k := 0;
    while k < |order|
      invariant 0 <= k <= |order|
      invariant r == Substitute(target, decl, order[..k])
    {
      var name := order[k];
      assert order[..k + 1][..k] == order[..k];
      if name != "Array" {
        r := ReplaceAll(r, name, decl[name]);
      }
      k := k + 1;
    }
    assert order[..k] == order;
  }

  /** `inline::<T>()`: the generics first, then the dependencies; with no
      declarations at all the inline text comes back unchanged. */
  method Inline(target: string, generics: GenericsVisitor, genericsOrder: seq<string>,
                dependencies: GenericsVisitor, dependenciesOrder: seq<string>) returns (r: string)
    requires IsEnumeration(genericsOrder, generics.decl)
    requires IsEnumeration(dependenciesOrder, dependencies.decl)
    ensures r == Substitute(Substitute(target, generics.decl, genericsOrder), dependencies.decl, dependenciesOrder)
    ensures generics.decl == map[] && dependencies.decl == map[] ==> r == target
  {
    var t := Replace(target, generics.decl, genericsOrder);
    r := Replace(t, dependencies.decl, dependenciesOrder);
    EmptyEnumeration(genericsOrder, generics.decl);
    EmptyEnumeration(dependenciesOrder, dependencies.decl);
  }
}
