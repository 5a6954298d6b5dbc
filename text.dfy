// Character classes, decimal numerals, Python slicing and the handful of
// Python string methods (find, split, strip, splitlines, join) that the
// dependency system relies on, written out over `seq<char>`.
module Text {
  import opened Outcomes

  // ---------------------------------------------------------------------
  // Character classes (ASCII; see README for what is left out)

  predicate IsDigit(c: char) { '0' <= c <= '9' }
  predicate IsUpper(c: char) { 'A' <= c <= 'Z' }
  predicate IsLower(c: char) { 'a' <= c <= 'z' }
  predicate IsAlnum(c: char) { IsDigit(c) || IsUpper(c) || IsLower(c) }

  /** Python's str.isspace for the characters the model distinguishes. */
  predicate IsSpace(c: char) {
    c == ' ' || c == '\t' || c == '\n' || c == '\r' || c == '\U{000B}' || c == '\U{000C}'
    || c == '\U{001C}' || c == '\U{001D}' || c == '\U{001E}' || c == '\U{001F}'
    || c == '\U{0085}' || c == '\U{00A0}' || c == '\U{2028}' || c == '\U{2029}' || c == '\U{3000}'
  }

  /** The characters at which Python's str.splitlines breaks a line. */
  predicate IsLineBreak(c: char) {
    c == '\n' || c == '\r' || c == '\U{000B}' || c == '\U{000C}'
    || c == '\U{001C}' || c == '\U{001D}' || c == '\U{001E}'
    || c == '\U{0085}' || c == '\U{2028}' || c == '\U{2029}'
  }

  predicate HasDigit(s: string) { exists i :: 0 <= i < |s| && IsDigit(s[i]) }
  predicate AllDigits(s: string) { forall i :: 0 <= i < |s| ==> IsDigit(s[i]) }
  predicate HasLineBreak(s: string) { exists i :: 0 <= i < |s| && IsLineBreak(s[i]) }

  /** Printable ASCII only. */
  predicate Printable(s: string) { forall i :: 0 <= i < |s| ==> ' ' <= s[i] <= '~' }

  lemma PrintableNoBreak(s: string)
    requires Printable(s)
    ensures !HasLineBreak(s) && forall i :: 0 <= i < |s| ==> s[i] != '\n'
  {
    forall i | 0 <= i < |s| ensures !IsLineBreak(s[i]) { assert ' ' <= s[i] <= '~'; }
  }

  function ToLowerChar(c: char): char {
    if IsUpper(c) then (c as int + 32) as char else c
  }
  function ToLower(s: string): (r: string)
    ensures |r| == |s|
  {
    seq(|s|, i requires 0 <= i < |s| => ToLowerChar(s[i]))
  }

  function Repeat(c: char, n: nat): (r: string)
    ensures |r| == n
  {
    seq(n, _ => c)
  }

  // ---------------------------------------------------------------------
  // Decimal numerals: Python's int(digits) and str(n)

  function DigitValue(c: char): nat
    requires IsDigit(c)
  {
    c as int - '0' as int
  }

  function DigitChar(d: nat): (c: char)
    requires d < 10
    ensures IsDigit(c) && DigitValue(c) == d
  {
    ('0' as int + d) as char
  }

  function ParseDigits(s: string): nat
    requires AllDigits(s)
    decreases |s|
  {
    if s == [] then 0 else ParseDigits(s[..|s| - 1]) * 10 + DigitValue(s[|s| - 1])
  }

  function NatToString(n: nat): (r: string)
    ensures |r| > 0 && AllDigits(r)
    decreases n
  {
    if n < 10 then [DigitChar(n)] else NatToString(n / 10) + [DigitChar(n % 10)]
  }

  /** int(str(n)) == n */
  lemma {:induction false} ParseNatToString(n: nat)
    ensures ParseDigits(NatToString(n)) == n
    decreases n
  {
    if n >= 10 {
      var s := NatToString(n);
      assert s[..|s| - 1] == NatToString(n / 10);
      ParseNatToString(n / 10);
    }
  }

  /** A character and the numeral of a number of at least three are shorter than the number. */
  lemma {:induction false} NatToStringShort(n: nat)
    requires n >= 3
    ensures |NatToString(n)| + 1 < n
    decreases n
  {
    if n >= 10 && n / 10 >= 3 {
      NatToStringShort(n / 10);
    }
  }

  // ---------------------------------------------------------------------
  // Python slicing with negative and out-of-range bounds

  function Clip(i: int, n: nat): (r: nat)
    ensures r <= n
  {
    if i < 0 then (if n + i < 0 then 0 else n + i) else if i > n then n else i
  }

  /** s[i:j] */
  function Slice(s: string, i: int, j: int): string {
    var a, b := Clip(i, |s|), Clip(j, |s|);
    if a <= b then s[a..b] else []
  }

  /** s[:j] */
  function Upto(s: string, j: int): string { s[..Clip(j, |s|)] }

  /** s[i:] */
  function From(s: string, i: int): string { s[Clip(i, |s|)..] }

  // ---------------------------------------------------------------------
  // Searching

  predicate StartsWith(s: string, p: string) { |p| <= |s| && s[..|p|] == p }
  predicate EndsWith(s: string, p: string) { |p| <= |s| && s[|s| - |p|..] == p }

  /** `p` occurs in `s` at position `i`. */
  predicate At(s: string, p: string, i: int) {
    0 <= i && i + |p| <= |s| && s[i..i + |p|] == p
  }

  /** Python's `p in s`. */
  predicate Contains(s: string, p: string) { exists i | 0 <= i <= |s| :: At(s, p, i) }

  /** The first position at or after `from` where `p` occurs (str.find). */
  function Find(s: string, p: string, from: nat): (r: Option<nat>)
    ensures r.Some? ==> from <= r.value && At(s, p, r.value)
    ensures r.Some? ==> forall j :: from <= j < r.value ==> !At(s, p, j)
    ensures r.None? ==> forall j :: from <= j ==> !At(s, p, j)
    decreases |s| - from
  {
    if from + |p| > |s| then None
    else if At(s, p, from) then Some(from)
    else Find(s, p, from + 1)
  }

  lemma FindContains(s: string, p: string)
    ensures Find(s, p, 0).Some? <==> Contains(s, p)
  {
    if Contains(s, p) {
      var i :| At(s, p, i);
    }
  }

  // ---------------------------------------------------------------------
  // Splitting, stripping and joining

  /** str.split(sep, 1) for a non-empty separator. */
  function SplitOnce(s: string, sep: string): (r: seq<string>)
    requires sep != []
    ensures 1 <= |r| <= 2
    ensures |r| == 1 <==> !Contains(s, sep)
  {
    FindContains(s, sep);
    match Find(s, sep, 0)
    case None => [s]
    case Some(i) => [s[..i], s[i + |sep|..]]
  }

  /** str.split(sep) for a non-empty separator. */
  function Split(s: string, sep: string): (r: seq<string>)
    requires sep != []
    ensures |r| >= 1
    decreases |s|
  {
    match Find(s, sep, 0)
    case None => [s]
    case Some(i) => [s[..i]] + Split(s[i + |sep|..], sep)
  }

  /** str.split() with no separator: the maximal runs of non-space characters. */
  function SplitWhitespace(s: string): (r: seq<string>)
    ensures forall w | w in r :: w != [] && forall i :: 0 <= i < |w| ==> !IsSpace(w[i])
    decreases |s|
  {
    if s == [] then []
    else if IsSpace(s[0]) then SplitWhitespace(s[1..])
    else
      var n := WordLength(s);
      [s[..n]] + SplitWhitespace(s[n..])
  }

  function WordLength(s: string): (n: nat)
    requires s != [] && !IsSpace(s[0])
    ensures 1 <= n <= |s|
    ensures forall i :: 0 <= i < n ==> !IsSpace(s[i])
    ensures n < |s| ==> IsSpace(s[n])
    decreases |s|
  {
    if |s| == 1 || IsSpace(s[1]) then 1 else 1 + WordLength(s[1..])
  }

  function LStrip(s: string): (r: string)
    ensures r == [] || !IsSpace(r[0])
    ensures |r| <= |s| && r == s[|s| - |r|..]
    decreases |s|
  {
    if s != [] && IsSpace(s[0]) then LStrip(s[1..]) else s
  }

  function RStrip(s: string): (r: string)
    ensures r == [] || !IsSpace(r[|r| - 1])
    ensures |r| <= |s| && r == s[..|r|]
    decreases |s|
  {
    if s != [] && IsSpace(s[|s| - 1]) then RStrip(s[..|s| - 1]) else s
  }

  /** str.strip() */
  function Strip(s: string): string { RStrip(LStrip(s)) }

  lemma StripNoSpaceEnds(s: string)
    requires s == [] || (!IsSpace(s[0]) && !IsSpace(s[|s| - 1]))
    ensures Strip(s) == s
  {
  }

  /** sep.join(parts) */
  function Join(sep: string, parts: seq<string>): string
    decreases |parts|
  {
    if parts == [] then []
    else if |parts| == 1 then parts[0]
    else parts[0] + sep + Join(sep, parts[1..])
  }

  /** str.splitlines(): lines without their terminators, no final empty line. */
  function SplitLines(s: string): (r: seq<string>)
    ensures forall l | l in r :: !HasLineBreak(l)
    decreases |s|
  {
    if s == [] then []
    else
      var n := LineLength(s);
      if n == |s| then [s]
      else
        var skip := if s[n] == '\r' && n + 1 < |s| && s[n + 1] == '\n' then 2 else 1;
        [s[..n]] + SplitLines(s[n + skip..])
  }

  /** The length of the first line of `s`: the position of its first line break. */
  function LineLength(s: string): (n: nat)
    ensures n <= |s|
    ensures forall i :: 0 <= i < n ==> !IsLineBreak(s[i])
    ensures n < |s| ==> IsLineBreak(s[n])
    decreases |s|
  {
    if s == [] || IsLineBreak(s[0]) then 0 else 1 + LineLength(s[1..])
  }

  /** Replaces every `from` by `to` (str.replace on one character). */
  function ReplaceChar(s: string, from: char, to: char): (r: string)
    ensures |r| == |s|
  {
    seq(|s|, i requires 0 <= i < |s| => if s[i] == from then to else s[i])
  }

  // ---------------------------------------------------------------------
  // Splitting at a single separator character and joining back

  /** Cutting a sequence in two and putting the pieces back together gives it back. */
  lemma TakeDrop<T>(s: seq<T>, n: nat)
    requires n <= |s|
    ensures s[..n] + s[n..] == s
  {
  }

  /** Appending in two steps is appending the pieces together. */
  lemma Regroup<T>(r: seq<T>, piece: seq<T>, d: seq<T>, total: seq<T>)
    requires r + (piece + d) == total
    ensures (r + piece) + d == total
  {
  }

  predicate NoChar(s: string, c: char) { forall i :: 0 <= i < |s| ==> s[i] != c }

  lemma NoCharConcat(a: string, b: string, c: char)
    ensures NoChar(a + b, c) <==> NoChar(a, c) && NoChar(b, c)
  {
    if NoChar(a + b, c) {
      forall i | 0 <= i < |b| ensures b[i] != c { assert (a + b)[|a| + i] == b[i]; }
      forall i | 0 <= i < |a| ensures a[i] != c { assert (a + b)[i] == a[i]; }
    }
  }

  /** A one-character pattern occurs exactly where that character stands. */
  lemma AtChar(s: string, c: char)
    ensures forall i :: 0 <= i < |s| ==> (At(s, [c], i) <==> s[i] == c)
  {
    forall i | 0 <= i < |s| ensures At(s, [c], i) <==> s[i] == c {
      assert s[i..i + 1] == [s[i]];
    }
  }

  lemma FindFirstChar(a: string, c: char, b: string)
    requires NoChar(a, c)
    ensures Find(a + [c] + b, [c], 0) == Some(|a|)
  {
    var s := a + [c] + b;
    AtChar(s, c);
    assert s[|a|] == c;
    assert forall i :: 0 <= i < |a| ==> s[i] == a[i];
  }

  /** A one-character pattern occurs iff the character does. */
  lemma ContainsCharIff(s: string, c: char)
    ensures Contains(s, [c]) <==> !NoChar(s, c)
  {
    AtChar(s, c);
    if !NoChar(s, c) {
      var i :| 0 <= i < |s| && s[i] == c;
      assert At(s, [c], i);
    }
  }

  lemma FindNoChar(a: string, c: char)
    requires NoChar(a, c)
    ensures Find(a, [c], 0) == None
  {
    AtChar(a, c);
  }

  lemma {:induction false} SplitNoSep(s: string, c: char)
    ensures forall w | w in Split(s, [c]) :: NoChar(w, c)
    decreases |s|
  {
    AtChar(s, c);
    match Find(s, [c], 0)
    case None =>
    case Some(i) =>
      assert forall j :: 0 <= j < i ==> s[..i][j] == s[j];
      SplitNoSep(s[i + 1..], c);
  }

  /** Splitting a join at a separator the parts do not contain gives the parts back. */
  lemma {:induction false} SplitJoin(parts: seq<string>, c: char)
    requires parts != [] && forall w | w in parts :: NoChar(w, c)
    ensures Split(Join([c], parts), [c]) == parts
    decreases |parts|
  {
    if |parts| == 1 {
      FindNoChar(parts[0], c);
      assert Split(parts[0], [c]) == [parts[0]];
    } else {
      var rest := Join([c], parts[1..]);
      assert parts[0] in parts;
      assert forall w | w in parts[1..] :: NoChar(w, c);
      SplitCons(Join([c], parts), parts[0], c, rest);
      SplitJoin(parts[1..], c);
      assert parts == [parts[0]] + parts[1..];
    }
  }

  /** Splitting at a character splits at its first occurrence. */
  lemma SplitCons(s: string, a: string, c: char, rest: string)
    requires s == a + [c] + rest && NoChar(a, c)
    ensures Split(s, [c]) == [a] + Split(rest, [c])
  {
    FindFirstChar(a, c, rest);
    assert s[..|a|] == a;
    assert s[|a| + 1..] == rest;
  }

  lemma SplitLeadingSep(x: string, c: char)
    ensures Split([c] + x, [c]) == [[]] + Split(x, [c])
  {
    FindFirstChar([], c, x);
    assert ([c] + x)[1..] == x;
  }

  lemma JoinNoChar(parts: seq<string>, c: char, d: char)
    requires c != d && forall w | w in parts :: NoChar(w, d)
    ensures NoChar(Join([c], parts), d)
    decreases |parts|
  {
    if |parts| > 1 {
      JoinNoChar(parts[1..], c, d);
      var s := parts[0] + [c] + Join([c], parts[1..]);
      assert parts[0] in parts;
      forall i | 0 <= i < |s| ensures s[i] != d {
        if i < |parts[0]| { assert s[i] == parts[0][i]; }
        else if i > |parts[0]| { assert s[i] == Join([c], parts[1..])[i - |parts[0]| - 1]; }
      }
    }
  }

  lemma JoinHead(parts: seq<string>, c: char)
    requires parts != [] && parts[0] != []
    ensures Join([c], parts) != [] && Join([c], parts)[0] == parts[0][0]
  {
  }

  lemma {:induction false} JoinSnoc(sep: string, parts: seq<string>, x: string)
    requires parts != []
    ensures Join(sep, parts + [x]) == Join(sep, parts) + sep + x
    decreases |parts|
  {
    if |parts| == 1 {
      assert (parts + [x])[1..] == [x];
    } else {
      assert (parts + [x])[1..] == parts[1..] + [x];
      JoinSnoc(sep, parts[1..], x);
    }
  }
}
