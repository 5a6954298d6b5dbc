// The natural key order the tracker writer uses: a key is cut into maximal
// runs of digits and of non-digits (`re.findall(r'\d+|\D+', key)`), digit
// runs compare as integers and other runs as text, and the key list is
// sorted stably by that list of parts.
module NaturalOrder {
  import opened Outcomes
  import opened Text

  /** One element of a sort key: `int(p)` for a digit run, `p` itself otherwise. */
  datatype Part = Num(value: nat) | Word(text: string)

  /** Length of the digit run at the start of `s`. */
  function DigitPrefix(s: string): (n: nat)
    ensures n <= |s|
    ensures forall i :: 0 <= i < n ==> IsDigit(s[i])
    ensures n < |s| ==> !IsDigit(s[n])
    decreases |s|
  {
    if s == [] || !IsDigit(s[0]) then 0 else 1 + DigitPrefix(s[1..])
  }

  /** Length of the non-digit run at the start of `s`. */
  function WordPrefix(s: string): (n: nat)
    ensures n <= |s|
    ensures forall i :: 0 <= i < n ==> !IsDigit(s[i])
    ensures n < |s| ==> IsDigit(s[n])
    decreases |s|
  {
    if s == [] || IsDigit(s[0]) then 0 else 1 + WordPrefix(s[1..])
  }

  /** The parts sort_key builds; they alternate between numbers and words. */
  function SortKey(s: string): (r: seq<Part>)
    ensures s == [] <==> r == []
    ensures s != [] ==> forall i :: 0 <= i < |r| ==> (r[i].Num? <==> (i % 2 == 0) == IsDigit(s[0]))
    decreases |s|
  {
    if s == [] then []
    else if IsDigit(s[0]) then
      var n := DigitPrefix(s);
      [Num(ParseDigits(s[..n]))] + SortKey(s[n..])
    else
      var n := WordPrefix(s);
      [Word(s[..n])] + SortKey(s[n..])
  }

  // ---------------------------------------------------------------------
  // Python's `<` on strings, on parts and on lists of parts

  /** Code-point lexicographic order on strings. */
  predicate TextLess(a: string, b: string)
    decreases |a|
  {
    if a == [] then b != []
    else if b == [] then false
    else if a[0] != b[0] then a[0] < b[0]
    else TextLess(a[1..], b[1..])
  }

  /**
   * Numbers by value and words as text.  Python refuses to order a number
   * against a word; the model puts numbers first, and SameKinds shows
   * that keys NaturalSort accepts never reach that case.
   */
  predicate PartLess(p: Part, q: Part) {
    match (p, q)
    case (Num(m), Num(n)) => m < n
    case (Word(a), Word(b)) => TextLess(a, b)
    case (Num(_), Word(_)) => true
    case (Word(_), Num(_)) => false
  }

  /** List comparison: the first unequal elements decide, a proper prefix comes first. */
  predicate PartsLess(a: seq<Part>, b: seq<Part>)
    decreases |a|
  {
    if a == [] then b != []
    else if b == [] then false
    else if a[0] != b[0] then PartLess(a[0], b[0])
    else PartsLess(a[1..], b[1..])
  }

  /** `sort_key(x) < sort_key(y)` */
  predicate NaturalLess(x: string, y: string) {
    PartsLess(SortKey(x), SortKey(y))
  }

  lemma {:induction false} TextLessIrreflexive(a: string)
    ensures !TextLess(a, a)
    decreases |a|
  {
    if a != [] { TextLessIrreflexive(a[1..]); }
  }

  lemma {:induction false} TextLessTransitive(a: string, b: string, c: string)
    requires TextLess(a, b) && TextLess(b, c)
    ensures TextLess(a, c)
    decreases |a|
  {
    if a != [] && a[0] == b[0] && b[0] == c[0] {
      TextLessTransitive(a[1..], b[1..], c[1..]);
    }
  }

  lemma PartLessIrreflexive(p: Part)
    ensures !PartLess(p, p)
  {
    if p.Word? { TextLessIrreflexive(p.text); }
  }

  lemma PartLessTransitive(p: Part, q: Part, r: Part)
    requires PartLess(p, q) && PartLess(q, r)
    ensures PartLess(p, r)
  {
    if p.Word? && q.Word? && r.Word? { TextLessTransitive(p.text, q.text, r.text); }
  }

  lemma {:induction false} PartsLessIrreflexive(a: seq<Part>)
    ensures !PartsLess(a, a)
    decreases |a|
  {
    if a != [] { PartsLessIrreflexive(a[1..]); }
  }

  lemma {:induction false} PartsLessTransitive(a: seq<Part>, b: seq<Part>, c: seq<Part>)
    requires PartsLess(a, b) && PartsLess(b, c)
    ensures PartsLess(a, c)
    decreases |a|
  {
    if a != [] && b != [] && c != [] {
      if a[0] == b[0] && b[0] == c[0] {
        PartsLessTransitive(a[1..], b[1..], c[1..]);
      } else if a[0] != b[0] && b[0] != c[0] {
        PartLessTransitive(a[0], b[0], c[0]);
        if a[0] == c[0] { PartLessIrreflexive(a[0]); }
      } else if a[0] == b[0] {
        assert PartLess(a[0], c[0]);
      }
    }
  }

  lemma NaturalLessIrreflexive(x: string)
    ensures !NaturalLess(x, x)
  {
    PartsLessIrreflexive(SortKey(x));
  }

  lemma NaturalLessTransitive(x: string, y: string, z: string)
    requires NaturalLess(x, y) && NaturalLess(y, z)
    ensures NaturalLess(x, z)
  {
    PartsLessTransitive(SortKey(x), SortKey(y), SortKey(z));
  }

  // ---------------------------------------------------------------------
  // When Python can compare two sort keys

  /** Both keys start with a digit, or neither does (or one is empty). */
  predicate SameStart(x: string, y: string) {
    x == [] || y == [] || IsDigit(x[0]) == IsDigit(y[0])
  }

  /** Every pair of keys in the list can be compared without a TypeError. */
  predicate Comparable(keys: seq<string>) {
    forall i, j :: 0 <= i < |keys| && 0 <= j < |keys| ==> SameStart(keys[i], keys[j])
  }

  /**
   * Keys with the same kind of first character have parts of the same kind
   * at every common position, so comparing them never orders a number
   * against a word; keys with different kinds differ already at their first
   * parts, where Python raises TypeError.
   */
  lemma SameKinds(x: string, y: string)
    ensures SameStart(x, y) ==>
      forall i :: 0 <= i < |SortKey(x)| && i < |SortKey(y)| ==> SortKey(x)[i].Num? == SortKey(y)[i].Num?
    ensures !SameStart(x, y) ==> SortKey(x)[0].Num? != SortKey(y)[0].Num?
  {
  }

  // ---------------------------------------------------------------------
  // sorted(keys, key=sort_key): a stable sort

  /** `less` is irreflexive and transitive. */
  ghost predicate StrictOrder(less: (string, string) -> bool) {
    (forall a :: !less(a, a))
    && (forall a, b, c :: less(a, b) && less(b, c) ==> less(a, c))
  }

  /** Ascending under `less`: no later key sorts before an earlier one. */
  predicate SortedBy(less: (string, string) -> bool, s: seq<string>) {
    forall i, j :: 0 <= i < j < |s| ==> !less(s[j], s[i])
  }

  /** Inserts `x` after every key that does not sort after it. */
  function Insert(less: (string, string) -> bool, x: string, s: seq<string>): (r: seq<string>)
    ensures |r| == |s| + 1
    decreases |s|
  {
    if s == [] then [x]
    else if less(x, s[0]) then [x] + s
    else [s[0]] + Insert(less, x, s[1..])
  }

  lemma {:induction false} InsertMembers(less: (string, string) -> bool, x: string, s: seq<string>)
    ensures forall y | y in Insert(less, x, s) :: y == x || y in s
    decreases |s|
  {
    if s != [] && !less(x, s[0]) {
      InsertMembers(less, x, s[1..]);
    }
  }

  /** Insertion sort taking the keys from the front, so equal keys keep their order. */
  function InsertionSort(less: (string, string) -> bool, s: seq<string>): (r: seq<string>)
    ensures |r| == |s|
    decreases |s|
  {
    if s == [] then [] else Insert(less, s[|s| - 1], InsertionSort(less, s[..|s| - 1]))
  }

  lemma {:induction false} InsertPermutes(less: (string, string) -> bool, x: string, s: seq<string>)
    ensures multiset(Insert(less, x, s)) == multiset(s) + multiset{x}
    decreases |s|
  {
    if s != [] && !less(x, s[0]) {
      InsertPermutes(less, x, s[1..]);
      assert s == [s[0]] + s[1..];
    }
  }

  lemma {:induction false} InsertionSortPermutes(less: (string, string) -> bool, s: seq<string>)
    ensures multiset(InsertionSort(less, s)) == multiset(s)
    decreases |s|
  {
    if s != [] {
      InsertionSortPermutes(less, s[..|s| - 1]);
      InsertPermutes(less, s[|s| - 1], InsertionSort(less, s[..|s| - 1]));
      assert s == s[..|s| - 1] + [s[|s| - 1]];
    }
  }

  lemma {:induction false} InsertSorted(less: (string, string) -> bool, x: string, s: seq<string>)
    requires StrictOrder(less) && SortedBy(less, s)
    ensures SortedBy(less, Insert(less, x, s))
    decreases |s|
  {
    if s == [] {
    } else if less(x, s[0]) {
      InsertFront(less, x, s);
    } else {
      InsertSorted(less, x, s[1..]);
      InsertBehind(less, x, s);
    }
  }

  /** A key sorting before the first key goes in front, and the result stays sorted. */
  lemma {:induction false} InsertFront(less: (string, string) -> bool, x: string, s: seq<string>)
    requires StrictOrder(less) && SortedBy(less, s) && s != [] && less(x, s[0])
    ensures SortedBy(less, [x] + s)
  {
    var r := [x] + s;
    forall i, j | 0 <= i < j < |r| ensures !less(r[j], r[i]) {
      if i == 0 {
        assert r[j] == s[j - 1];
      } else {
        assert r[i] == s[i - 1] && r[j] == s[j - 1];
      }
    }
  }

  /** Otherwise the first key stays in front of the sorted insertion into the rest. */
  lemma {:induction false} InsertBehind(less: (string, string) -> bool, x: string, s: seq<string>)
    requires SortedBy(less, s) && s != [] && !less(x, s[0])
    requires SortedBy(less, Insert(less, x, s[1..]))
    ensures SortedBy(less, [s[0]] + Insert(less, x, s[1..]))
  {
    HeadFirst(less, s);
    InsertMembers(less, x, s[1..]);
    ConsSorted(less, s[0], Insert(less, x, s[1..]));
  }

  lemma {:induction false} HeadFirst(less: (string, string) -> bool, s: seq<string>)
    requires SortedBy(less, s) && s != []
    ensures forall y | y in s[1..] :: !less(y, s[0])
  {
    forall y | y in s[1..] ensures !less(y, s[0]) {
      var m :| 0 <= m < |s| - 1 && s[1..][m] == y;
      assert s[m + 1] == y;
    }
  }

  lemma {:induction false} ConsSorted(less: (string, string) -> bool, h: string, t: seq<string>)
    requires SortedBy(less, t) && forall y | y in t :: !less(y, h)
    ensures SortedBy(less, [h] + t)
  {
    var r := [h] + t;
    forall i, j | 0 <= i < j < |r| ensures !less(r[j], r[i]) {
      assert r[j] == t[j - 1];
      if i > 0 { assert r[i] == t[i - 1]; }
    }
  }

  lemma {:induction false} InsertionSortSorted(less: (string, string) -> bool, s: seq<string>)
    requires StrictOrder(less)
    ensures SortedBy(less, InsertionSort(less, s))
    decreases |s|
  {
    if s != [] {
      InsertionSortSorted(less, s[..|s| - 1]);
      InsertSorted(less, s[|s| - 1], InsertionSort(less, s[..|s| - 1]));
    }
  }

  lemma NaturalStrictOrder()
    ensures StrictOrder(NaturalLess)
  {
    forall a ensures !NaturalLess(a, a) { NaturalLessIrreflexive(a); }
    forall a, b, c | NaturalLess(a, b) && NaturalLess(b, c) ensures NaturalLess(a, c) {
      NaturalLessTransitive(a, b, c);
    }
  }

  /** Ascending in the natural order. */
  predicate NaturallySorted(s: seq<string>) {
    forall i, j :: 0 <= i < j < |s| ==> !NaturalLess(s[j], s[i])
  }

  /**
   * sorted(keys, key=sort_key): TypeError when two keys start with
   * characters of different kinds; otherwise the keys in ascending natural
   * order, each as often as it occurs.
   */
  function NaturalSort(keys: seq<string>): (r: Result<seq<string>>)
    ensures r.Err? <==> !Comparable(keys)
    ensures r.Err? ==> r.error == TypeError
    ensures r.Ok? ==> NaturallySorted(r.value) && multiset(r.value) == multiset(keys)
  {
    if !Comparable(keys) then Err(TypeError)
    else
      NaturalStrictOrder();
      InsertionSortSorted(NaturalLess, keys);
      InsertionSortPermutes(NaturalLess, keys);
      Ok(InsertionSort(NaturalLess, keys))
  }

  lemma SortKeyExample()
    ensures SortKey("1A2") == [Num(1), Word("A"), Num(2)]
  {
    assert DigitPrefix("1A2") == 1 && ParseDigits("1") == 1;
    assert "1A2"[..1] == "1" && "1A2"[1..] == "A2";
    assert WordPrefix("A2") == 1;
    assert "A2"[..1] == "A" && "A2"[1..] == "2";
    assert DigitPrefix("2") == 1 && ParseDigits("2") == 2;
    assert SortKey("2") == [Num(2)];
  }

  lemma SortKeyExample10()
    ensures SortKey("1A10") == [Num(1), Word("A"), Num(10)]
  {
    assert DigitPrefix("1A10") == 1 && ParseDigits("1") == 1;
    assert "1A10"[..1] == "1" && "1A10"[1..] == "A10";
    assert WordPrefix("A10") == 1;
    assert "A10"[..1] == "A" && "A10"[1..] == "10";
    assert DigitPrefix("10") == 2 && ParseDigits("10") == 10;
    assert SortKey("10") == [Num(10)];
  }

  /** Digit runs compare as numbers: "1A2" comes before "1A10", unlike in text order. */
  lemma NaturalOrderExample()
    ensures NaturalLess("1A2", "1A10") && TextLess("1A10", "1A2")
  {
    SortKeyExample();
    SortKeyExample10();
  }
}
