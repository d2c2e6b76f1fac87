/** Ordered key/value sequences: the model of Flask's request `args`/`form` (a MultiDict),
    of Python dicts, and of URL query strings before they are encoded. */
module Pairs {
  import opened Wrappers
  import opened Seqs

  function Keys<K, V>(s: seq<(K, V)>): (ks: seq<K>)
    ensures |ks| == |s| && forall i :: 0 <= i < |s| ==> ks[i] == s[i].0
  {
    seq(|s|, i requires 0 <= i < |s| => s[i].0)
  }

  /** `key in d`. */
  predicate Has<K(==), V>(s: seq<(K, V)>, k: K) {
    k in Keys(s)
  }

  /** `d.get(key)`: the first value stored under `key`, as MultiDict.get returns. */
  function Get<K(==), V>(s: seq<(K, V)>, k: K): (r: Option<V>)
    ensures r.Some? <==> Has(s, k)
    ensures r.Some? ==> exists i :: 0 <= i < |s| && s[i] == (k, r.value) && forall j :: 0 <= j < i ==> s[j].0 != k
  {
    match FirstIndex(Keys(s), k)
    case None => None
    case Some(i) => Some(s[i].1)
  }

  /** A Python dict: no key appears twice. */
  predicate UniqueKeys<K(==), V>(s: seq<(K, V)>) {
    Distinct(Keys(s))
  }

  /** In a dict, looking an item's key up finds that item's value. */
  lemma GetAt<K, V>(s: seq<(K, V)>, i: nat)
    requires UniqueKeys(s) && i < |s|
    ensures Get(s, s[i].0) == Some(s[i].1)
  {
    FirstIndexOfDistinct(Keys(s), i);
  }

  /** Looking up in a sequence with one more item in front. */
  lemma GetCons<K, V>(p: (K, V), s: seq<(K, V)>, k: K)
    ensures Get([p] + s, k) == if p.0 == k then Some(p.1) else Get(s, k)
  {
    assert Keys([p] + s) == [p.0] + Keys(s);
    assert ([p] + s)[1..] == s;
  }

  /** `dict(items)`: the items as a map, a later item overriding an earlier one with the same key. */
  function ToMap<K, V>(s: seq<(K, V)>): (m: map<K, V>)
    ensures m.Keys == set i | 0 <= i < |s| :: s[i].0
    ensures UniqueKeys(s) ==> forall i :: 0 <= i < |s| ==> s[i].0 in m && m[s[i].0] == s[i].1
  {
    if s == [] then map[]
    else
      var init := s[..|s| - 1];
      assert Keys(s) == Keys(init) + [s[|s| - 1].0];
      assert UniqueKeys(s) ==> UniqueKeys(init) && s[|s| - 1].0 !in Keys(init);
      ToMap(init)[s[|s| - 1].0 := s[|s| - 1].1]
  }
}
