// Order-preserving de-duplication of lists: the `seen` set idiom, and
// `list(set(xs))`, whose order Python leaves unspecified and which the
// model fixes as first occurrence.
module Sequences {

  /** Each element once, at its first occurrence. */
  function Dedup<T(==)>(xs: seq<T>): seq<T>
    decreases |xs|
  {
    if xs == [] then []
    else
      var init := xs[..|xs| - 1];
      Dedup(init) + (if xs[|xs| - 1] in init then [] else [xs[|xs| - 1]])
  }

  /** The elements kept by `keep`, each once, at their first occurrence. */
  function Select<T(==)>(xs: seq<T>, keep: T -> bool): seq<T>
    decreases |xs|
  {
    if xs == [] then []
    else
      var last := xs[|xs| - 1];
      var acc := Select(xs[..|xs| - 1], keep);
      acc + (if keep(last) && last !in acc then [last] else [])
  }

  predicate NoRepeats<T(==)>(xs: seq<T>) {
    forall i, j | 0 <= i < j < |xs| :: xs[i] != xs[j]
  }

  lemma AppendFresh<T>(xs: seq<T>, x: T)
    requires NoRepeats(xs) && x !in xs
    ensures NoRepeats(xs + [x])
  {
  }

  /** De-duplication keeps exactly the elements, each once, and never lengthens the list. */
  lemma {:induction false} DedupMembers<T>(xs: seq<T>)
    ensures forall x :: x in Dedup(xs) <==> x in xs
    ensures NoRepeats(Dedup(xs)) && |Dedup(xs)| <= |xs|
    decreases |xs|
  {
    if xs != [] {
      var init := xs[..|xs| - 1];
      DedupMembers(init);
      assert xs == init + [xs[|xs| - 1]];
      if xs[|xs| - 1] !in init {
        AppendFresh(Dedup(init), xs[|xs| - 1]);
      }
    }
  }

  /** Selection keeps exactly the elements `keep` accepts, each once. */
  lemma {:induction false} SelectMembers<T>(xs: seq<T>, keep: T -> bool)
    ensures forall x :: x in Select(xs, keep) <==> x in xs && keep(x)
    ensures NoRepeats(Select(xs, keep)) && |Select(xs, keep)| <= |xs|
    decreases |xs|
  {
    if xs != [] {
      var init := xs[..|xs| - 1];
      SelectMembers(init, keep);
      assert xs == init + [xs[|xs| - 1]];
      var acc := Select(init, keep);
      if keep(xs[|xs| - 1]) && xs[|xs| - 1] !in acc {
        AppendFresh(acc, xs[|xs| - 1]);
      }
    }
  }

  /** Selecting from a prefix gives a prefix of the selection. */
  lemma {:induction false} SelectPrefix<T>(xs: seq<T>, k: nat, keep: T -> bool)
    requires k <= |xs|
    ensures Select(xs[..k], keep) <= Select(xs, keep)
    decreases |xs|
  {
    if k < |xs| {
      var init := xs[..|xs| - 1];
      assert init[..k] == xs[..k];
      SelectPrefix(init, k, keep);
    } else {
      assert xs[..k] == xs;
    }
  }

  lemma SelectSnoc<T>(xs: seq<T>, k: nat, keep: T -> bool)
    requires k < |xs|
    ensures Select(xs[..k + 1], keep)
            == Select(xs[..k], keep) + (if keep(xs[k]) && xs[k] !in Select(xs[..k], keep) then [xs[k]] else [])
  {
    assert xs[..k + 1][..k] == xs[..k];
  }
}
