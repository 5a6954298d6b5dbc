// Text made of lines, each followed by "\n": the layout of a tracker
// file.  The lemmas locate the first occurrence of a pattern in such a
// text from properties of the individual lines.
module Lines {
  import opened Outcomes
  import opened Text

  /** Each line followed by a line feed: what writing `line + "\n"` for every line produces. */
  function Unlines(ls: seq<string>): (s: string)
    ensures |s| >= |ls|
    decreases |ls|
  {
    if ls == [] then [] else ls[0] + "\n" + Unlines(ls[1..])
  }

  /** No line contains a line feed. */
  predicate NoFeeds(ls: seq<string>) {
    forall i :: 0 <= i < |ls| ==> NoChar(ls[i], '\n')
  }

  /** The text of lines around a middle line `x`. */
  lemma UnlinesMiddle(pre: seq<string>, x: string, post: seq<string>)
    ensures Unlines(pre + [x] + post) == Unlines(pre) + (x + "\n" + Unlines(post))
  {
    assert pre + [x] + post == pre + ([x] + post);
    UnlinesAppend(pre, [x] + post);
    assert ([x] + post)[1..] == post;
  }

  lemma {:induction false} UnlinesAppend(a: seq<string>, b: seq<string>)
    ensures Unlines(a + b) == Unlines(a) + Unlines(b)
    decreases |a|
  {
    if a == [] {
      assert a + b == b;
    } else {
      assert (a + b)[0] == a[0];
      assert (a + b)[1..] == a[1..] + b;
      UnlinesAppend(a[1..], b);
    }
  }

  /** The text of lines ends with a line feed. */
  lemma {:induction false} UnlinesLast(ls: seq<string>)
    requires ls != []
    ensures var s := Unlines(ls); s[|s| - 1] == '\n' && s == s[..|s| - 1] + "\n"
    decreases |ls|
  {
    if |ls| > 1 {
      UnlinesLast(ls[1..]);
    }
  }

  /** The text of a non-empty list of lines is their "\n"-join plus a final line feed. */
  lemma {:induction false} UnlinesJoin(ls: seq<string>)
    requires ls != []
    ensures Unlines(ls) == Join("\n", ls) + "\n"
    decreases |ls|
  {
    if |ls| > 1 {
      UnlinesJoin(ls[1..]);
    }
  }

  /** A window that lies in the second part of a concatenation. */
  lemma AtShift(a: string, b: string, p: string, j: int)
    requires j >= 0
    ensures At(a + b, p, |a| + j) <==> At(b, p, j)
  {
    if j + |p| <= |b| {
      assert (a + b)[|a| + j..|a| + j + |p|] == b[j..j + |p|];
    }
  }

  /** "\n" + `p` at a line feed: the text after it starts with `p`. */
  lemma AtBreak(a: string, rest: string, p: string)
    ensures At(a + "\n" + rest, "\n" + p, |a|) <==> StartsWith(rest, p)
  {
    var s := a + "\n" + rest;
    if |p| <= |rest| {
      assert s[|a|..|a| + 1 + |p|] == "\n" + rest[..|p|];
      assert ("\n" + p)[1..] == p;
      assert ("\n" + rest[..|p|])[1..] == rest[..|p|];
    }
  }

  /** A first occurrence identified directly. */
  lemma FindAt(s: string, p: string, from: nat, i: nat)
    requires from <= i && At(s, p, i)
    requires forall j :: from <= j < i ==> !At(s, p, j)
    ensures Find(s, p, from) == Some(i)
  {
  }

  /** A pattern without line feeds starts a text exactly when it starts its first line. */
  lemma StartsFirstLine(l: string, t: string, p: string)
    requires NoChar(p, '\n')
    ensures StartsWith(l + "\n" + t, p) <==> StartsWith(l, p)
  {
    var s := l + "\n" + t;
    if |p| <= |l| {
      assert s[..|p|] == l[..|p|];
    } else if |p| <= |s| {
      assert s[..|p|][|l|] == '\n';
      assert s[..|p|] != p;
    }
  }

  /** "\n" + `p` does not occur inside a line. */
  lemma NoBreakInLine(l: string, t: string, p: string)
    requires NoChar(l, '\n')
    ensures forall j :: 0 <= j < |l| ==> !At(l + "\n" + t, "\n" + p, j)
  {
    forall j | 0 <= j < |l| ensures !At(l + "\n" + t, "\n" + p, j) {
      assert (l + "\n" + t)[j] == l[j];
    }
  }

  /** Occurrences after the first line are the occurrences in the rest, shifted. */
  lemma BreakMatchShift(l: string, t: string, p: string, n: int)
    requires forall j :: 0 <= j < n ==> !At(t, "\n" + p, j)
    ensures forall j :: |l| < j < |l| + 1 + n ==> !At(l + "\n" + t, "\n" + p, j)
  {
    forall j | |l| < j < |l| + 1 + n ensures !At(l + "\n" + t, "\n" + p, j) {
      AtShift(l + "\n", t, "\n" + p, j - |l| - 1);
    }
  }

  /**
   * "\n" followed by `p` does not occur before the line feed that ends the
   * last of `mid`, when no line of `mid` after the first starts with `p`.
   */
  lemma {:induction false} NoBreakMatch(mid: seq<string>, rest: string, p: string)
    requires mid != [] && NoFeeds(mid) && NoChar(p, '\n')
    requires forall i :: 1 <= i < |mid| ==> !StartsWith(mid[i], p)
    ensures forall j :: 0 <= j < |Unlines(mid)| - 1 ==> !At(Unlines(mid) + rest, "\n" + p, j)
    decreases |mid|
  {
    var l := mid[0];
    var t := Unlines(mid[1..]) + rest;
    assert Unlines(mid) + rest == l + "\n" + t;
    assert NoChar(l, '\n');
    NoBreakInLine(l, t, p);
    if |mid| > 1 {
      NoBreakMatch(mid[1..], rest, p);
      BreakMatchShift(l, t, p, |Unlines(mid[1..])| - 1);
      assert t == mid[1] + "\n" + (Unlines(mid[2..]) + rest) by {
        assert mid[1..][0] == mid[1];
        assert mid[1..][1..] == mid[2..];
      }
      StartsFirstLine(mid[1], Unlines(mid[2..]) + rest, p);
      AtBreak(l, t, p);
    }
  }

  /**
   * The first "\n" + `p` in the text of `mid`, then `x`, then more lines, is
   * the line feed ending `mid`, when `x` starts with `p` and no later line
   * of `mid` does.
   */
  lemma FindBreakLine(mid: seq<string>, x: string, post: seq<string>, p: string)
    requires mid != [] && NoFeeds(mid) && NoChar(p, '\n') && StartsWith(x, p)
    requires forall i :: 1 <= i < |mid| ==> !StartsWith(mid[i], p)
    ensures Find(Unlines(mid + [x] + post), "\n" + p, 0) == Some(|Unlines(mid)| - 1)
  {
    UnlinesMiddle(mid, x, post);
    FindBreakIn(mid, x, post, p, Unlines(mid + [x] + post));
  }

  lemma FindBreakIn(mid: seq<string>, x: string, post: seq<string>, p: string, s: string)
    requires mid != [] && NoFeeds(mid) && NoChar(p, '\n') && StartsWith(x, p)
    requires forall i :: 1 <= i < |mid| ==> !StartsWith(mid[i], p)
    requires s == Unlines(mid) + (x + "\n" + Unlines(post))
    ensures Find(s, "\n" + p, 0) == Some(|Unlines(mid)| - 1)
  {
    var rest := x + "\n" + Unlines(post);
    NoBreakMatch(mid, rest, p);
    UnlinesLast(mid);
    var a := Unlines(mid)[..|Unlines(mid)| - 1];
    assert s == a + "\n" + rest;
    StartsFirstLine(x, Unlines(post), p);
    AtBreak(a, rest, p);
    FindAt(s, "\n" + p, 0, |a|);
  }

  /** `q` + "\n" occurs in the first line's text only where the line ends with `q`. */
  lemma NoEndInLine(l: string, t: string, q: string)
    requires NoChar(l, '\n') && NoChar(q, '\n') && q != [] && !EndsWith(l, q)
    ensures forall j :: 0 <= j <= |l| ==> !At(l + "\n" + t, q + "\n", j)
  {
    var s := l + "\n" + t;
    forall j | 0 <= j <= |l| ensures !At(s, q + "\n", j) {
      if j + |q| + 1 <= |s| {
        var w := s[j..j + |q| + 1];
        if j + |q| < |l| {
          assert w[|q|] == l[j + |q|] != '\n';
          assert (q + "\n")[|q|] == '\n';
          assert w != q + "\n";
        } else if j + |q| == |l| {
          assert w[..|q|] == l[j..] != q;
          assert (q + "\n")[..|q|] == q;
          assert w != q + "\n";
        } else {
          assert w[|l| - j] == '\n';
          assert (q + "\n")[|l| - j] == q[|l| - j] != '\n';
          assert w != q + "\n";
        }
      }
    }
  }

  /** Occurrences after the first line are the occurrences in the rest, shifted. */
  lemma MatchShift(l: string, t: string, p: string, n: int)
    requires forall j :: 0 <= j < n ==> !At(t, p, j)
    ensures forall j :: |l| < j < |l| + 1 + n ==> !At(l + "\n" + t, p, j)
  {
    forall j | |l| < j < |l| + 1 + n ensures !At(l + "\n" + t, p, j) {
      AtShift(l + "\n", t, p, j - |l| - 1);
    }
  }

  /** `q` + "\n" does not occur in the text of lines none of which ends with `q`. */
  lemma {:induction false} NoEndMatch(ls: seq<string>, rest: string, q: string)
    requires NoFeeds(ls) && NoChar(q, '\n') && q != []
    requires forall i :: 0 <= i < |ls| ==> !EndsWith(ls[i], q)
    ensures forall j :: 0 <= j < |Unlines(ls)| ==> !At(Unlines(ls) + rest, q + "\n", j)
    decreases |ls|
  {
    if ls != [] {
      var l := ls[0];
      var t := Unlines(ls[1..]) + rest;
      assert Unlines(ls) + rest == l + "\n" + t;
      assert NoChar(l, '\n') && !EndsWith(l, q);
      NoEndInLine(l, t, q);
      NoEndMatch(ls[1..], rest, q);
      MatchShift(l, t, q + "\n", |Unlines(ls[1..])|);
    }
  }

  /** The first `q` + "\n" in a text of lines is the first line equal to `q`. */
  lemma FindWholeLine(pre: seq<string>, q: string, post: seq<string>)
    requires NoFeeds(pre) && NoChar(q, '\n') && q != []
    requires forall i :: 0 <= i < |pre| ==> !EndsWith(pre[i], q)
    ensures Find(Unlines(pre + [q] + post), q + "\n", 0) == Some(|Unlines(pre)|)
  {
    UnlinesMiddle(pre, q, post);
    FindWholeLineIn(pre, q, post, Unlines(pre + [q] + post));
  }

  lemma FindWholeLineIn(pre: seq<string>, q: string, post: seq<string>, s: string)
    requires NoFeeds(pre) && NoChar(q, '\n') && q != []
    requires forall i :: 0 <= i < |pre| ==> !EndsWith(pre[i], q)
    requires s == Unlines(pre) + (q + "\n" + Unlines(post))
    ensures Find(s, q + "\n", 0) == Some(|Unlines(pre)|)
  {
    var rest := q + "\n" + Unlines(post);
    NoEndMatch(pre, rest, q);
    AtShift(Unlines(pre), rest, q + "\n", 0);
    assert rest[..|q| + 1] == q + "\n";
    FindAt(s, q + "\n", 0, |Unlines(pre)|);
  }

  /** A pattern without line feeds occurs in a line's text only inside the line. */
  lemma NoContainInLine(l: string, t: string, p: string)
    requires NoChar(l, '\n') && NoChar(p, '\n') && p != [] && !Contains(l, p)
    ensures forall j :: 0 <= j <= |l| ==> !At(l + "\n" + t, p, j)
  {
    var s := l + "\n" + t;
    forall j | 0 <= j <= |l| ensures !At(s, p, j) {
      if j + |p| <= |l| {
        assert s[j..j + |p|] == l[j..j + |p|];
        assert !At(l, p, j);
      } else if j + |p| <= |s| {
        assert s[j..j + |p|][|l| - j] == '\n';
        assert p[|l| - j] != '\n';
      }
    }
  }

  /** A pattern without line feeds that no line contains does not occur in their text. */
  lemma {:induction false} NoContainMatch(ls: seq<string>, rest: string, p: string)
    requires NoFeeds(ls) && NoChar(p, '\n') && p != []
    requires forall i :: 0 <= i < |ls| ==> !Contains(ls[i], p)
    ensures forall j :: 0 <= j < |Unlines(ls)| ==> !At(Unlines(ls) + rest, p, j)
    decreases |ls|
  {
    if ls != [] {
      var l := ls[0];
      var t := Unlines(ls[1..]) + rest;
      assert Unlines(ls) + rest == l + "\n" + t;
      assert NoChar(l, '\n') && !Contains(l, p);
      NoContainInLine(l, t, p);
      NoContainMatch(ls[1..], rest, p);
      MatchShift(l, t, p, |Unlines(ls[1..])|);
    }
  }

  /** The first occurrence of a pattern is at the start of the first line that starts with it. */
  lemma FindLineStart(pre: seq<string>, x: string, post: seq<string>, p: string)
    requires NoFeeds(pre) && NoChar(p, '\n') && p != [] && StartsWith(x, p)
    requires forall i :: 0 <= i < |pre| ==> !Contains(pre[i], p)
    ensures Find(Unlines(pre + [x] + post), p, 0) == Some(|Unlines(pre)|)
    ensures Unlines(pre + [x] + post) == Unlines(pre) + x + "\n" + Unlines(post)
  {
    UnlinesMiddle(pre, x, post);
    FindLineStartIn(pre, x, post, p, Unlines(pre + [x] + post));
  }

  lemma FindLineStartIn(pre: seq<string>, x: string, post: seq<string>, p: string, s: string)
    requires NoFeeds(pre) && NoChar(p, '\n') && p != [] && StartsWith(x, p)
    requires forall i :: 0 <= i < |pre| ==> !Contains(pre[i], p)
    requires s == Unlines(pre) + (x + "\n" + Unlines(post))
    ensures Find(s, p, 0) == Some(|Unlines(pre)|)
  {
    var rest := x + "\n" + Unlines(post);
    NoContainMatch(pre, rest, p);
    AtShift(Unlines(pre), rest, p, 0);
    assert rest[..|p|] == x[..|p|];
    FindAt(s, p, 0, |Unlines(pre)|);
  }

  // ---------------------------------------------------------------------
  // Splitting a text back into its lines

  /** No line break of any kind in any line. */
  predicate NoBreaks(ls: seq<string>) {
    forall i :: 0 <= i < |ls| ==> !HasLineBreak(ls[i])
  }

  lemma FirstLineLength(l: string, t: string)
    requires !HasLineBreak(l)
    ensures LineLength(l + "\n" + t) == |l|
    decreases |l|
  {
    if l != [] {
      assert !IsLineBreak(l[0]);
      assert !HasLineBreak(l[1..]) by {
        forall i | 0 <= i < |l[1..]| ensures !IsLineBreak(l[1..][i]) { assert l[1..][i] == l[i + 1]; }
      }
      FirstLineLength(l[1..], t);
      assert (l + "\n" + t)[1..] == l[1..] + "\n" + t;
    }
  }

  /** str.splitlines() of a "\n"-join recovers the lines when the last is not empty. */
  lemma {:induction false} SplitLinesJoin(ms: seq<string>)
    requires ms != [] && NoBreaks(ms) && ms[|ms| - 1] != []
    ensures SplitLines(Join("\n", ms)) == ms
    decreases |ms|
  {
    assert !HasLineBreak(ms[0]);
    if |ms| == 1 {
      assert LineLength(ms[0]) == |ms[0]| by {
        FirstLineLength(ms[0], []);
        LineLengthFull(ms[0]);
      }
    } else {
      var t := Join("\n", ms[1..]);
      var s := ms[0] + "\n" + t;
      assert Join("\n", ms) == s;
      FirstLineLength(ms[0], t);
      SplitLinesJoin(ms[1..]);
      assert t != [] by { JoinLastNonEmpty(ms[1..]); }
      assert s[..|ms[0]|] == ms[0];
      assert s[|ms[0]| + 1..] == t;
      assert ms == [ms[0]] + ms[1..];
    }
  }

  lemma LineLengthFull(l: string)
    requires !HasLineBreak(l)
    ensures LineLength(l) == |l|
    decreases |l|
  {
    if l != [] {
      assert !IsLineBreak(l[0]);
      assert !HasLineBreak(l[1..]) by {
        forall i | 0 <= i < |l[1..]| ensures !IsLineBreak(l[1..][i]) { assert l[1..][i] == l[i + 1]; }
      }
      LineLengthFull(l[1..]);
    }
  }

  lemma {:induction false} JoinLastNonEmpty(ms: seq<string>)
    requires ms != [] && ms[|ms| - 1] != []
    ensures Join("\n", ms) != []
    decreases |ms|
  {
    if |ms| > 1 {
      JoinLastNonEmpty(ms[1..]);
    }
  }

  // ---------------------------------------------------------------------
  // readlines()

  /** file.readlines(): the lines with their line feeds; the last one may lack it. */
  function ReadLines(s: string): (r: seq<string>)
    decreases |s|
  {
    if s == [] then []
    else
      match Find(s, "\n", 0)
      case None => [s]
      case Some(i) => [s[..i + 1]] + ReadLines(s[i + 1..])
  }

  /** Each line of `ls` with its line feed. */
  function WithFeeds(ls: seq<string>): (r: seq<string>)
    ensures |r| == |ls| && forall i :: 0 <= i < |ls| ==> r[i] == ls[i] + "\n"
  {
    seq(|ls|, i requires 0 <= i < |ls| => ls[i] + "\n")
  }

  /** Reading back the text of lines without line feeds gives each line with its line feed. */
  lemma {:induction false} ReadUnlines(ls: seq<string>)
    requires NoFeeds(ls)
    ensures ReadLines(Unlines(ls)) == WithFeeds(ls)
    decreases |ls|
  {
    if ls != [] {
      var rest := Unlines(ls[1..]);
      assert NoChar(ls[0], '\n');
      FindFirstChar(ls[0], '\n', rest);
      var s := Unlines(ls);
      assert s == ls[0] + ['\n'] + rest;
      assert s[..|ls[0]| + 1] == ls[0] + "\n";
      assert s[|ls[0]| + 1..] == rest;
      ReadUnlines(ls[1..]);
      assert WithFeeds(ls) == [ls[0] + "\n"] + WithFeeds(ls[1..]);
    }
  }

  // ---------------------------------------------------------------------
  // Searching inside concatenations

  /** Searching from the start of the second part of a concatenation. */
  lemma FindShift(a: string, b: string, p: string, i: nat)
    requires At(b, p, i) && forall j :: 0 <= j < i ==> !At(b, p, j)
    ensures Find(a + b, p, |a|) == Some(|a| + i)
  {
    FindAtShifted(a, b, a + b, p, i);
  }

  lemma FindAtShifted(a: string, b: string, s: string, p: string, i: nat)
    requires s == a + b
    requires At(b, p, i) && forall j :: 0 <= j < i ==> !At(b, p, j)
    ensures Find(s, p, |a|) == Some(|a| + i)
  {
    ShiftedFirst(a, b, p, i);
    FindAt(s, p, |a|, |a| + i);
  }

  lemma ShiftedFirst(a: string, b: string, p: string, i: nat)
    requires At(b, p, i) && forall j :: 0 <= j < i ==> !At(b, p, j)
    ensures At(a + b, p, |a| + i) && forall j :: |a| <= j < |a| + i ==> !At(a + b, p, j)
  {
    AtShift(a, b, p, i);
    NoAtShift(a, b, p, i);
  }

  lemma NoAtShift(a: string, b: string, p: string, i: nat)
    requires forall j :: 0 <= j < i ==> !At(b, p, j)
    ensures forall j :: |a| <= j < |a| + i ==> !At(a + b, p, j)
  {
    forall j | |a| <= j < |a| + i ensures !At(a + b, p, j) {
      AtShift(a, b, p, j - |a|);
    }
  }

  /** A text lacking one of the pattern's characters does not contain it. */
  lemma NoCharNoContains(a: string, p: string, i: nat)
    requires i < |p| && NoChar(a, p[i])
    ensures !Contains(a, p)
  {
    forall j | 0 <= j <= |a| ensures !At(a, p, j) {
      if j + |p| <= |a| {
        assert a[j..j + |p|][i] == a[j + i];
      }
    }
  }

  /** A pattern without `c` that neither side contains is not contained in `a + [c] + b`. */
  lemma ContainsSplit(a: string, c: char, b: string, p: string)
    requires NoChar(p, c) && !Contains(a, p) && !Contains(b, p)
    ensures !Contains(a + [c] + b, p)
  {
    var s := a + [c] + b;
    forall j | 0 <= j <= |s| ensures !At(s, p, j) {
      if j + |p| <= |s| {
        if j + |p| <= |a| {
          assert s[j..j + |p|] == a[j..j + |p|];
          assert !At(a, p, j);
        } else if j <= |a| {
          assert s[j..j + |p|][|a| - j] == c;
        } else {
          assert s[j..j + |p|] == b[j - |a| - 1..j - |a| - 1 + |p|];
          assert !At(b, p, j - |a| - 1);
        }
      }
    }
  }

  /** A text that ends with `q` ends with q's last character. */
  lemma EndsWithLast(l: string, q: string)
    requires q != [] && l != [] && l[|l| - 1] != q[|q| - 1]
    ensures !EndsWith(l, q)
  {
    if |q| <= |l| {
      assert l[|l| - |q|..][|q| - 1] == l[|l| - 1];
    }
  }

  /** A text that starts with `p` starts with p's first character. */
  lemma StartsDiffer(l: string, p: string)
    requires p != [] && l != [] && l[0] != p[0]
    ensures !StartsWith(l, p)
  {
    if |p| <= |l| {
      assert l[..|p|][0] == l[0];
    }
  }

  lemma NoBreakConcat(a: string, b: string)
    requires !HasLineBreak(a) && !HasLineBreak(b)
    ensures !HasLineBreak(a + b)
  {
    forall i | 0 <= i < |a + b| ensures !IsLineBreak((a + b)[i]) {
      if i < |a| { assert (a + b)[i] == a[i]; } else { assert (a + b)[i] == b[i - |a|]; }
    }
  }

  lemma {:induction false} JoinNoBreaks(sep: string, parts: seq<string>)
    requires !HasLineBreak(sep) && forall i :: 0 <= i < |parts| ==> !HasLineBreak(parts[i])
    ensures !HasLineBreak(Join(sep, parts))
    decreases |parts|
  {
    if |parts| > 1 {
      JoinNoBreaks(sep, parts[1..]);
      NoBreakConcat(parts[0], sep);
      NoBreakConcat(parts[0] + sep, Join(sep, parts[1..]));
    }
  }

  /** No line break of any kind implies no line feed. */
  lemma NoBreakNoFeed(s: string)
    requires !HasLineBreak(s)
    ensures NoChar(s, '\n')
  {
    forall i | 0 <= i < |s| ensures s[i] != '\n' { assert !IsLineBreak(s[i]); }
  }

  lemma NoBreaksNoFeeds(ls: seq<string>)
    requires NoBreaks(ls)
    ensures NoFeeds(ls)
  {
    forall i | 0 <= i < |ls| ensures NoChar(ls[i], '\n') { NoBreakNoFeed(ls[i]); }
  }

  /**
   * The end marker after a block of lines: searching for a line feed
   * followed by `end` from the start of `mid` finds the line feed that
   * ends mid's last line, and the text before it is mid's lines joined.
   */
  lemma FindBlockEnd(c: string, a: string, mid: seq<string>, end: string, post: seq<string>, from: nat, to: nat)
    requires c == a + Unlines(mid + [end] + post) && from == |a| && to == from + |Unlines(mid)| - 1
    requires mid != [] && NoFeeds(mid) && NoChar(end, '\n')
    requires forall i :: 1 <= i < |mid| ==> !StartsWith(mid[i], end)
    ensures from <= to <= |c|
    ensures Find(c, "\n" + end, from) == Some(to)
    ensures c[from..to] == Join("\n", mid)
  {
    BlockEndFound(c, a, Unlines(mid + [end] + post), mid, end, post, from);
    BlockText(c, a, Unlines(mid + [end] + post), mid, end, post, from);
  }

  lemma BlockEndFound(c: string, a: string, b: string, mid: seq<string>, end: string, post: seq<string>, from: nat)
    requires b == Unlines(mid + [end] + post) && c == a + b && from == |a|
    requires mid != [] && NoFeeds(mid) && NoChar(end, '\n')
    requires forall i :: 1 <= i < |mid| ==> !StartsWith(mid[i], end)
    ensures Find(c, "\n" + end, from) == Some(from + |Unlines(mid)| - 1)
  {
    assert StartsWith(end, end);
    FindBreakLine(mid, end, post, end);
    var q := |Unlines(mid)| - 1;
    assert At(b, "\n" + end, q) && forall j :: 0 <= j < q ==> !At(b, "\n" + end, j);
    FindShift(a, b, "\n" + end, q);
  }

  /** The lines of a block, less the last line feed, sit right after the text before them. */
  lemma BlockText(c: string, a: string, b: string, mid: seq<string>, end: string, post: seq<string>, from: nat)
    requires mid != [] && b == Unlines(mid + [end] + post) && c == a + b && from == |a|
    ensures from + |Unlines(mid)| - 1 <= |c|
    ensures c[from..from + |Unlines(mid)| - 1] == Join("\n", mid)
  {
    assert mid + [end] + post == mid + ([end] + post);
    UnlinesAppend(mid, [end] + post);
    UnlinesJoin(mid);
    var q := |Unlines(mid)| - 1;
    assert c[from..from + q] == b[..q];
    assert b[..q] == Unlines(mid)[..q];
  }

  /**
   * A block of lines between a start line and an end line: the start line
   * is found where it stands when no earlier line ends with it, and the end
   * marker right after the block when no later line of the block starts
   * with it.
   */
  lemma FindBlock(c: string, pre: seq<string>, start: string, mid: seq<string>, end: string, post: seq<string>, from: nat, to: nat)
    requires c == Unlines(pre + [start] + mid + [end] + post)
    requires from == |Unlines(pre)| + |start| + 1 && to == |Unlines(pre)| + |start| + |Unlines(mid)|
    requires NoFeeds(pre) && NoChar(start, '\n') && start != []
    requires forall i :: 0 <= i < |pre| ==> !EndsWith(pre[i], start)
    requires mid != [] && NoFeeds(mid) && NoChar(end, '\n')
    requires forall i :: 1 <= i < |mid| ==> !StartsWith(mid[i], end)
    ensures Find(c, start + "\n", 0) == Some(|Unlines(pre)|)
    ensures from <= to <= |c|
    ensures Find(c, "\n" + end, from) == Some(to)
    ensures c[from..to] == Join("\n", mid)
  {
    var tail := mid + [end] + post;
    BlockSplit(c, pre, start, mid, end, post, tail);
    FindBlockEnd(c, Unlines(pre + [start]), mid, end, post, from, to);
  }

  /** The text of a block split after its start line, and the start line found there. */
  lemma BlockSplit(c: string, pre: seq<string>, start: string, mid: seq<string>, end: string, post: seq<string>, tail: seq<string>)
    requires c == Unlines(pre + [start] + mid + [end] + post) && tail == mid + [end] + post
    requires NoFeeds(pre) && NoChar(start, '\n') && start != []
    requires forall i :: 0 <= i < |pre| ==> !EndsWith(pre[i], start)
    ensures c == Unlines(pre + [start]) + Unlines(tail)
    ensures |Unlines(pre + [start])| == |Unlines(pre)| + |start| + 1
    ensures Find(c, start + "\n", 0) == Some(|Unlines(pre)|)
  {
    assert pre + [start] + mid + [end] + post == pre + [start] + tail;
    FindWholeLine(pre, start, tail);
    UnlinesAround(pre, start, tail);
  }

  lemma UnlinesAround(pre: seq<string>, x: string, tail: seq<string>)
    ensures Unlines(pre + [x] + tail) == Unlines(pre + [x]) + Unlines(tail)
    ensures |Unlines(pre + [x])| == |Unlines(pre)| + |x| + 1
  {
    UnlinesAppend(pre + [x], tail);
    UnlinesAppend(pre, [x]);
    assert Unlines([x]) == x + "\n";
  }
}
