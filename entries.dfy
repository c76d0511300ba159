/** Lists of (key, value) entries searched by key: the shape of a JSON
    object's members, of the registry's two-level table and of a path's
    method router. */
module Entries {
  import opened Wrappers

  /** Position of the first entry with the key, if any. */
  function FindKey<K(==), V>(s: seq<(K, V)>, key: K): (r: Option<nat>)
    ensures r.Some? ==> r.value < |s| && s[r.value].0 == key
    ensures r.Some? ==> forall j :: 0 <= j < r.value ==> s[j].0 != key
    ensures r.None? <==> forall j :: 0 <= j < |s| ==> s[j].0 != key
  {
    if s == [] then None
    else if s[0].0 == key then Some(0)
    else match FindKey(s[1..], key)
      case None => None
      case Some(k) => Some(k + 1)
  }

  /** The first entry with the key is the one found. */
  lemma {:induction false} FindKeyFirst<K, V>(s: seq<(K, V)>, key: K, k: nat)
    requires k < |s| && s[k].0 == key
    requires forall j :: 0 <= j < k ==> s[j].0 != key
    ensures FindKey(s, key) == Some(k)
  {
    if k > 0 {
      FindKeyFirst(s[1..], key, k - 1);
    }
  }

  /** With distinct keys an entry is found at its only position. */
  lemma FindKeyUnique<K, V>(s: seq<(K, V)>, key: K, k: nat)
    requires forall i, j :: 0 <= i < j < |s| ==> s[i].0 != s[j].0
    requires k < |s| && s[k].0 == key
    ensures FindKey(s, key) == Some(k)
  {
    FindKeyFirst(s, key, k);
  }

  /** An entry appended under another key changes nothing found. */
  lemma FindKeyAppendOther<K, V>(s: seq<(K, V)>, e: (K, V), key: K)
    requires e.0 != key
    ensures FindKey(s + [e], key) == FindKey(s, key)
  {
    var t := s + [e];
    match FindKey(s, key)
    case None =>
      assert forall j :: 0 <= j < |t| ==> t[j].0 != key by {
        forall j | 0 <= j < |t| ensures t[j].0 != key {
          if j < |s| { assert t[j] == s[j]; }
        }
      }
    case Some(k) =>
      assert t[k] == s[k];
      assert forall j :: 0 <= j < k ==> t[j] == s[j];
      FindKeyFirst(t, key, k);
  }

  /** An entry appended under a key no earlier entry has is found at the end. */
  lemma FindKeyAppendNew<K, V>(s: seq<(K, V)>, e: (K, V))
    requires FindKey(s, e.0).None?
    ensures FindKey(s + [e], e.0) == Some(|s|)
  {
    var t := s + [e];
    assert forall j :: 0 <= j < |s| ==> t[j] == s[j];
    FindKeyFirst(t, e.0, |s|);
  }
}
