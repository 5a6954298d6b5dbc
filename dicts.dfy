// Python dictionaries keep their keys in insertion order, and several
// operations of the dependency system depend on that order (the column
// order of a tracker, the first key of a key map, the last suggestion
// row).  A dictionary is modelled as its key order together with the map
// from keys to values; every dictionary of the model has string keys.
module Dicts {

  datatype Dict<V> = Dict(order: seq<string>, values: map<string, V>)

  /** Each key once in the order, and the order lists exactly the keys of the map. */
  predicate Valid<V>(d: Dict<V>) {
    Distinct(d.order)
    && (forall k | k in d.values :: k in d.order)
    && (forall i | 0 <= i < |d.order| :: d.order[i] in d.values)
  }

  function Empty<V>(): (d: Dict<V>)
    ensures Valid(d) && d.values == map[]
  {
    Dict([], map[])
  }

  /** `d[k] = v`: an existing key keeps its place, a new key goes last. */
  function Put<V>(d: Dict<V>, k: string, v: V): (r: Dict<V>)
    requires Valid(d)
    ensures Valid(r)
    ensures r.values == d.values[k := v]
    ensures r.order == if k in d.values then d.order else d.order + [k]
  {
    if k in d.values then Dict(d.order, d.values[k := v]) else Dict(d.order + [k], d.values[k := v])
  }

  /** The keys of `ks` that `d` does not have, in order. */
  function FreshKeys<V>(d: Dict<V>, ks: seq<string>): (r: seq<string>)
    ensures forall k | k in r :: k in ks && k !in d.values
    ensures forall k | k in ks && k !in d.values :: k in r
    decreases |ks|
  {
    if ks == [] then []
    else [] + (if ks[0] in d.values then [] else [ks[0]]) + FreshKeys(d, ks[1..])
  }

  /** `d.update(u)`, or `{**d, **u}`: u's items assigned into d in u's order. */
  function Overlay<V>(d: Dict<V>, u: Dict<V>): (r: Dict<V>)
    requires Valid(d) && Valid(u)
    ensures Valid(r)
    ensures r.values == d.values + u.values
    ensures r.order == d.order + FreshKeys(d, u.order)
  {
    FreshDistinct(d, u.order);
    AppendDistinct(d.order, FreshKeys(d, u.order));
    Dict(d.order + FreshKeys(d, u.order), d.values + u.values)
  }

  /** Each element at most once. */
  predicate Distinct(s: seq<string>) {
    forall i, j :: 0 <= i < j < |s| ==> s[i] != s[j]
  }

  lemma AppendDistinct(a: seq<string>, b: seq<string>)
    requires Distinct(a) && Distinct(b)
    requires forall k | k in a :: k !in b
    ensures Distinct(a + b)
  {
    forall i, j | 0 <= i < j < |a + b|
      ensures (a + b)[i] != (a + b)[j]
    {
      if j >= |a| && i < |a| {
        assert (a + b)[i] in a && (a + b)[j] == b[j - |a|];
      }
    }
  }

  /** Filtering a list of distinct keys keeps them distinct. */
  lemma {:induction false} FreshDistinct<V>(d: Dict<V>, ks: seq<string>)
    requires Distinct(ks)
    ensures Distinct(FreshKeys(d, ks))
    decreases |ks|
  {
    if ks != [] {
      assert Distinct(ks[1..]) by {
        forall i, j | 0 <= i < j < |ks[1..]| ensures ks[1..][i] != ks[1..][j] {
          assert ks[1..][i] == ks[i + 1] && ks[1..][j] == ks[j + 1];
        }
      }
      FreshDistinct(d, ks[1..]);
      assert ks[0] !in ks[1..];
      var head: seq<string> := if ks[0] in d.values then [] else [ks[0]];
      assert FreshKeys(d, ks) == head + FreshKeys(d, ks[1..]);
      AppendDistinct(head, FreshKeys(d, ks[1..]));
    }
  }

  /** A sequence of distinct keys has as many elements as it has members. */
  lemma {:induction false} DistinctCount(s: seq<string>)
    requires Distinct(s)
    ensures |set x | x in s| == |s|
    decreases |s|
  {
    if s != [] {
      var t := s[..|s| - 1];
      var last := s[|s| - 1];
      assert Distinct(t);
      DistinctCount(t);
      assert last !in t;
      assert (set x | x in s) == (set x | x in t) + {last};
    }
  }

  /** len(d): a valid dictionary lists as many keys in its order as its map holds. */
  lemma SizeIsKeyCount<V>(d: Dict<V>)
    ensures Valid(d) ==> |d.order| == |d.values|
  {
    if Valid(d) {
      DistinctCount(d.order);
      assert d.values.Keys == set x | x in d.order;
    }
  }

  function Items<V>(d: Dict<V>): (r: seq<(string, V)>)
    requires Valid(d)
    ensures |r| == |d.order|
    ensures forall i :: 0 <= i < |r| ==> r[i] == (d.order[i], d.values[d.order[i]])
  {
    seq(|d.order|, i requires 0 <= i < |d.order| => (d.order[i], d.values[d.order[i]]))
  }

  /** `[k for k in keys if k != key]`. */
  function Without(keys: seq<string>, key: string): (r: seq<string>)
    ensures key !in r
    ensures forall k | k in r :: k in keys
    ensures forall k | k in keys && k != key :: k in r
    ensures |r| <= |keys| && (key in keys ==> |r| < |keys|)
    decreases |keys|
  {
    if keys == [] then []
    else (if keys[0] != key then [keys[0]] else []) + Without(keys[1..], key)
  }

  /** Taking out a key that is not there changes nothing. */
  lemma {:induction false} WithoutAbsent(xs: seq<string>, key: string)
    requires key !in xs
    ensures Without(xs, key) == xs
    decreases |xs|
  {
    if xs != [] {
      WithoutAbsent(xs[1..], key);
      assert xs == [xs[0]] + xs[1..];
    }
  }

  /** Filtering a list of distinct keys keeps them distinct. */
  lemma {:induction false} WithoutDistinct(xs: seq<string>, key: string)
    requires Distinct(xs)
    ensures Distinct(Without(xs, key))
    decreases |xs|
  {
    if xs != [] {
      assert Distinct(xs[1..]) by {
        forall i, j | 0 <= i < j < |xs[1..]| ensures xs[1..][i] != xs[1..][j] {
          assert xs[1..][i] == xs[i + 1] && xs[1..][j] == xs[j + 1];
        }
      }
      WithoutDistinct(xs[1..], key);
      assert xs[0] !in xs[1..];
      var head: seq<string> := if xs[0] != key then [xs[0]] else [];
      AppendDistinct(head, Without(xs[1..], key));
    }
  }

  /** `del d[k]`, nothing when k is absent: the other keys keep their order. */
  function Remove<V>(d: Dict<V>, k: string): (r: Dict<V>)
    requires Valid(d)
    ensures Valid(r)
    ensures r.values == d.values - {k}
    ensures r.order == Without(d.order, k)
  {
    WithoutDistinct(d.order, k);
    var w := Without(d.order, k);
    assert forall i | 0 <= i < |w| :: w[i] in w;
    Dict(w, d.values - {k})
  }
}
