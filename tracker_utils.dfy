// utils/tracker_utils.py: the tolerant tracker reader, which keeps only
// well-formed lines with valid keys, and the aggregation of the links of
// many trackers by character priority, with the set of trackers each
// winning link was seen in.
module TrackerUtils {
  import opened Outcomes
  import opened Text
  import opened Dicts
  import KeyManager
  import PathUtils
  import DependencyGrid
  import TrackerIO

  type Tracker = TrackerIO.Tracker

  // ---------------------------------------------------------------------
  // The sections, searched without regard to case

  /**
   * re.search(start + "\n(.*?)\n" + end, content, re.DOTALL | re.IGNORECASE):
   * the first start marker line, in any case, and the text up to the first
   * end marker after it.  Lower-casing keeps every position in place.
   */
  function FoldedSection(s: string, start: string, end: string): (r: Option<string>)
  {
    var low := ToLower(s);
    match Find(low, ToLower(start + "\n"), 0)
    case None => None
    case Some(i) =>
      match Find(low, ToLower("\n" + end), i + |start| + 1)
      case None => None
      case Some(j) => Some(s[i + |start| + 1..j])
  }

  lemma LowerAt(s: string, p: string, i: nat)
    requires At(s, p, i)
    ensures At(ToLower(s), ToLower(p), i)
  {
    assert ToLower(s)[i..i + |p|] == ToLower(p);
  }

  /** Whenever the exact-case markers are present, the case-insensitive search finds a section too. */
  lemma FoldedFindsExact(s: string, start: string, end: string)
    requires TrackerIO.Section(s, start, end).Some?
    ensures FoldedSection(s, start, end).Some?
  {
    var i :| i == Find(s, start + "\n", 0).value;
    var j :| j == Find(s, "\n" + end, i + |start| + 1).value;
    LowerAt(s, start + "\n", i);
    LowerAt(s, "\n" + end, j);
    var low := ToLower(s);
    var i' := Find(low, ToLower(start + "\n"), 0);
    assert i'.Some? && i'.value <= i;
    var j' := Find(low, ToLower("\n" + end), i'.value + |start| + 1);
    assert j'.Some?;
  }

  // ---------------------------------------------------------------------
  // One line: ^([a-zA-Z0-9]+)\s*SEP\s*(.*)$

  /** The number of ASCII letters and digits from position k. */
  function AlnumRun(s: string, k: nat): (n: nat)
    requires k <= |s|
    ensures k + n <= |s|
    ensures forall i :: k <= i < k + n ==> IsAlnum(s[i])
    ensures k + n < |s| ==> !IsAlnum(s[k + n])
    decreases |s| - k
  {
    if k == |s| || !IsAlnum(s[k]) then 0 else 1 + AlnumRun(s, k + 1)
  }

  /**
   * re.match(r'^([a-zA-Z0-9]+)\s*SEP\s*(.*)$', line) on a line without line
   * breaks, with the second group stripped.  Only the longest run of letters
   * and digits can be followed by spaces and the separator, so the match
   * is decided at the end of that run.
   */
  function Entry(line: string, sep: char): (r: Option<(string, string)>)
    ensures r.Some? ==> r.value.0 != [] && forall i :: 0 <= i < |r.value.0| ==> IsAlnum(r.value.0[i])
    ensures r.Some? ==> |r.value.0| < |line| && line[..|r.value.0|] == r.value.0
  {
    var n := AlnumRun(line, 0);
    var m := n + TrackerIO.SpaceRun(line, n);
    if n == 0 || m == |line| || line[m] != sep then None
    else
      AlnumPrefix(line, n);
      Some((line[..n], Strip(line[m + 1..])))
  }

  lemma AlnumPrefix(line: string, n: nat)
    requires n == AlnumRun(line, 0)
    ensures forall i :: 0 <= i < |line[..n]| ==> IsAlnum(line[..n][i])
  {
  }

  /** Which section a line belongs to; key paths are normalised against `cwd`. */
  datatype SectionKind = KeySection(cwd: string) | GridSection

  const KeyHeaderLower := "key definitions:"

  /**
   * What one line of a section contributes: the stripped line must not be
   * blank or the "Key Definitions:" header (in any case), must match the
   * entry pattern with ":" (keys) or "=" (rows), and its key must pass
   * validate_key.  Key paths are normalised, row strings kept as stripped.
   */
  function LineEntry(kind: SectionKind, raw: string): (r: Option<(string, string)>)
    ensures r.Some? ==> KeyManager.ValidateKey(r.value.0)
  {
    var line := Strip(raw);
    if kind.KeySection? then
      if line == [] || StartsWith(ToLower(line), KeyHeaderLower) then None
      else
        var e := Entry(line, ':');
        if e.Some? && KeyManager.ValidateKey(e.value.0) then Some((e.value.0, PathUtils.NormalizePath(e.value.1, kind.cwd)))
        else None
    else
      var e := Entry(line, '=');
      if e.Some? && KeyManager.ValidateKey(e.value.0) then e else None
  }

  /** What each line of `ls` contributes. */
  function Entries(kind: SectionKind, ls: seq<string>): (r: seq<Option<(string, string)>>)
    ensures |r| == |ls| && forall j :: 0 <= j < |ls| ==> r[j] == LineEntry(kind, ls[j])
  {
    seq(|ls|, j requires 0 <= j < |ls| => LineEntry(kind, ls[j]))
  }

  /** The dictionary the loop has built after the entries `es`: each entry assigned in turn. */
  function Fill(es: seq<Option<(string, string)>>): (r: Dict<string>)
    ensures Valid(r)
    decreases |es|
  {
    if es == [] then Empty()
    else
      var d := Fill(es[..|es| - 1]);
      var e := es[|es| - 1];
      if e.Some? then Put(d, e.value.0, e.value.1) else d
  }

  /** Entry j of `es` assigns key k. */
  predicate EntryAt(es: seq<Option<(string, string)>>, j: int, k: string) {
    0 <= j < |es| && es[j].Some? && es[j].value.0 == k
  }

  /** A key is in the dictionary exactly when some entry assigns it. */
  lemma {:induction false} FillKeys(es: seq<Option<(string, string)>>, k: string)
    ensures k in Fill(es).values <==> exists j :: EntryAt(es, j, k)
    decreases |es|
  {
    if es != [] {
      var init := es[..|es| - 1];
      FillKeys(init, k);
      if exists j :: EntryAt(init, j, k) {
        var j :| EntryAt(init, j, k);
        assert EntryAt(es, j, k);
      }
      if EntryAt(es, |es| - 1, k) {
        assert k in Fill(es).values;
      }
      if exists j :: EntryAt(es, j, k) {
        var j :| EntryAt(es, j, k);
        if j < |es| - 1 {
          assert EntryAt(init, j, k);
        }
      }
    }
  }

  /** The value kept for a key is the one of the last entry that assigns it. */
  lemma {:induction false} FillLast(es: seq<Option<(string, string)>>, k: string, j: nat)
    requires EntryAt(es, j, k)
    requires forall j' :: j < j' < |es| ==> !EntryAt(es, j', k)
    ensures k in Fill(es).values
    ensures Fill(es).values[k] == es[j].value.1
    decreases |es|
  {
    var init := es[..|es| - 1];
    if j < |es| - 1 {
      assert !EntryAt(es, |es| - 1, k);
      forall j' | j < j' < |init| ensures !EntryAt(init, j', k) {
        assert !EntryAt(es, j', k);
      }
      assert EntryAt(init, j, k);
      FillLast(init, k, j);
    }
  }

  /**
   * The dictionary read_tracker_file fills from a section's lines: exactly
   * the keys of the lines that contribute an entry, all valid, each with
   * the value of the last line that names it.
   */
  function Collected(kind: SectionKind, ls: seq<string>): (r: Dict<string>)
    ensures Valid(r)
    ensures forall k | k in r.values :: KeyManager.ValidateKey(k)
  {
    var es := Entries(kind, ls);
    ValidEntries(es);
    Fill(es)
  }

  lemma ValidEntries(es: seq<Option<(string, string)>>)
    requires forall j :: 0 <= j < |es| && es[j].Some? ==> KeyManager.ValidateKey(es[j].value.0)
    ensures forall k | k in Fill(es).values :: KeyManager.ValidateKey(k)
  {
    forall k | k in Fill(es).values ensures KeyManager.ValidateKey(k) {
      FillKeys(es, k);
    }
  }

  /** A key definition line as the writers produce it is read back as that key and its normalised path. */
  lemma KeyLineEntry(k: string, p: string, cwd: string)
    requires KeyManager.KeyShape(k)
    requires p != [] && !IsSpace(p[0]) && !IsSpace(p[|p| - 1])
    ensures LineEntry(KeySection(cwd), k + ": " + p) == Some((k, PathUtils.NormalizePath(p, cwd)))
  {
    ShapeAlnum(k);
    WrittenLineStripped(k, ": ", p);
    NotKeyHeader(k, ": ", p);
    KeyLineParts(k, p);
    KeyLineOf(k + ": " + p, k, p, cwd);
  }

  lemma KeyLineOf(line: string, k: string, v: string, cwd: string)
    requires Strip(line) == line && line != [] && !StartsWith(ToLower(line), KeyHeaderLower)
    requires Entry(line, ':') == Some((k, v)) && KeyManager.ValidateKey(k)
    ensures LineEntry(KeySection(cwd), line) == Some((k, PathUtils.NormalizePath(v, cwd)))
  {
  }

  lemma KeyLineParts(k: string, p: string)
    requires k != [] && forall i :: 0 <= i < |k| ==> IsAlnum(k[i])
    requires p != [] && !IsSpace(p[0]) && !IsSpace(p[|p| - 1])
    ensures Entry(k + ": " + p, ':') == Some((k, p))
  {
    assert k + ": " + p == k + [':'] + (" " + p);
    EntryAtSep(k, ':', " " + p);
    StripSpaceBefore(p);
  }

  /** A row line as the writers produce it is read back as that key and row. */
  lemma RowLineEntry(k: string, row: string)
    requires KeyManager.KeyShape(k)
    requires row != [] && !IsSpace(row[0]) && !IsSpace(row[|row| - 1])
    ensures LineEntry(GridSection, k + " = " + row) == Some((k, row))
  {
    ShapeAlnum(k);
    WrittenLineStripped(k, " = ", row);
    RowLineParts(k, row);
    RowLineOf(k + " = " + row, k, row);
  }

  lemma RowLineOf(line: string, k: string, v: string)
    requires Strip(line) == line
    requires Entry(line, '=') == Some((k, v)) && KeyManager.ValidateKey(k)
    ensures LineEntry(GridSection, line) == Some((k, v))
  {
  }

  lemma RowLineParts(k: string, row: string)
    requires k != [] && forall i :: 0 <= i < |k| ==> IsAlnum(k[i])
    requires row != [] && !IsSpace(row[0]) && !IsSpace(row[|row| - 1])
    ensures Entry(k + " = " + row, '=') == Some((k, row))
  {
    assert k + " = " + row == k + " " + ['='] + (" " + row);
    EntryAtSpacedSep(k, '=', " " + row);
    StripSpaceBefore(row);
  }

  /** A line that begins with a key and ends with a non-space character is its own strip. */
  lemma WrittenLineStripped(k: string, mid: string, v: string)
    requires k != [] && IsDigit(k[0])
    requires v != [] && !IsSpace(v[|v| - 1])
    ensures Strip(k + mid + v) == k + mid + v
  {
    var line := k + mid + v;
    assert line[0] == k[0];
    assert line[|line| - 1] == v[|v| - 1];
    StripNoSpaceEnds(line);
  }

  /** A line that begins with a digit is not the key header. */
  lemma NotKeyHeader(k: string, mid: string, v: string)
    requires k != [] && IsDigit(k[0])
    ensures !StartsWith(ToLower(k + mid + v), KeyHeaderLower)
  {
    assert ToLower(k + mid + v)[0] == k[0];
  }

  lemma StripSpaceBefore(p: string)
    requires p != [] && !IsSpace(p[0]) && !IsSpace(p[|p| - 1])
    ensures Strip(" " + p) == p
  {
    assert LStrip(" " + p) == p by {
      assert (" " + p)[1..] == p;
      assert LStrip(p) == p;
    }
    assert RStrip(p) == p by {
      StripNoSpaceEnds(p);
    }
  }

  lemma ShapeAlnum(k: string)
    requires KeyManager.KeyShape(k)
    ensures k != [] && IsDigit(k[0]) && forall i :: 0 <= i < |k| ==> IsAlnum(k[i])
  {
  }

  /** The entry of `k` followed directly by the separator and `rest`. */
  lemma EntryAtSep(k: string, sep: char, rest: string)
    requires k != [] && forall i :: 0 <= i < |k| ==> IsAlnum(k[i])
    requires !IsAlnum(sep) && !IsSpace(sep)
    ensures Entry(k + [sep] + rest, sep) == Some((k, Strip(rest)))
  {
    var a := k + [sep] + rest;
    var n := |k|;
    assert a[n] == sep;
    AlnumRunOf(a, n);
    assert TrackerIO.SpaceRun(a, n) == 0;
    assert a[..n] == k;
    assert a[n + 1..] == rest;
  }

  /** The entry of `k` followed by one space, the separator and `rest`. */
  lemma EntryAtSpacedSep(k: string, sep: char, rest: string)
    requires k != [] && forall i :: 0 <= i < |k| ==> IsAlnum(k[i])
    requires !IsAlnum(sep) && !IsSpace(sep)
    ensures Entry(k + " " + [sep] + rest, sep) == Some((k, Strip(rest)))
  {
    var b := k + " " + [sep] + rest;
    var n := |k|;
    assert b[n] == ' ' && b[n + 1] == sep;
    AlnumRunOf(b, n);
    assert TrackerIO.SpaceRun(b, n + 1) == 0;
    assert TrackerIO.SpaceRun(b, n) == 1;
    assert b[..n] == k;
    assert b[n + 2..] == rest;
  }

  lemma {:induction false} AlnumRunOf(s: string, n: nat)
    requires n < |s| && !IsAlnum(s[n]) && forall i :: 0 <= i < n ==> IsAlnum(s[i])
    ensures AlnumRun(s, 0) == n
  {
    AlnumRunFrom(s, 0, n);
  }

  lemma {:induction false} AlnumRunFrom(s: string, k: nat, n: nat)
    requires k <= n < |s| && !IsAlnum(s[n]) && forall i :: k <= i < n ==> IsAlnum(s[i])
    ensures AlnumRun(s, k) == n - k
    decreases n - k
  {
    if k < n { AlnumRunFrom(s, k + 1, n); }
  }

  /** The loop of read_tracker_file over a section's lines: each line's entry assigned into the dictionary in turn. */
  method FillEntries(es: seq<Option<(string, string)>>) returns (d: Dict<string>)
    ensures d == Fill(es)
  {
    d := Empty();
    var i := 0;
    while i < |es|
      invariant i <= |es|
      invariant d == Fill(es[..i])
    {
      assert es[..i + 1][..i] == es[..i];
      var e := es[i];
      if e.Some? {
        d := Put(d, e.value.0, e.value.1);
      }
      i := i + 1;
    }
    assert es[..i] == es;
  }

  method CollectLines(kind: SectionKind, ls: seq<string>) returns (d: Dict<string>)
    ensures d == Collected(kind, ls)
  {
    d := FillEntries(Entries(kind, ls));
  }

  // ---------------------------------------------------------------------
  // The grid section's header

  /** `line.strip().upper().startswith("X ") or line.strip() == "X"`. */
  predicate AxisHeader(line: string) {
    var l := Strip(line);
    (|l| >= 2 && (l[0] == 'X' || l[0] == 'x') && l[1] == ' ') || l == "X"
  }

  /** The grid section's lines after the header line, when there is one. */
  function GridLines(g: string): (r: seq<string>)
    ensures var ls := SplitLines(Strip(g));
      r == if ls != [] && AxisHeader(ls[0]) then ls[1..] else ls
  {
    var ls := SplitLines(Strip(g));
    if ls != [] && AxisHeader(ls[0]) then ls[1..] else ls
  }

  // ---------------------------------------------------------------------
  // The metadata lines: ^tag\s*:\s*(.*)$ with re.MULTILINE | re.IGNORECASE

  const KeyEditTagLower := "last_key_edit"
  const GridEditTagLower := "last_grid_edit"

  /**
   * The pattern tried at position p: p starts a line, the tag follows in
   * any case, then optional whitespace (line feeds included), ":", optional
   * whitespace, and the group runs to the end of that line.  Whitespace is
   * never ":", so the greedy runs are never given back.
   */
  function EditAt(s: string, tag: string, p: nat): (r: Option<string>)
    requires p <= |s|
  {
    if TagAt(s, tag, p) then EditAfterTag(s, p + |tag|) else None
  }

  /** p starts a line and the tag follows there, in any case. */
  predicate TagAt(s: string, tag: string, p: nat)
    requires p <= |s|
  {
    (p == 0 || s[p - 1] == '\n') && p + |tag| <= |s| && ToLower(s[p..p + |tag|]) == tag
  }

  /** `\s*:\s*(.*)$` from position a, the group stripped. */
  function EditAfterTag(s: string, a: nat): (r: Option<string>)
    requires a <= |s|
  {
    var b := a + TrackerIO.SpaceRun(s, a);
    if b < |s| && s[b] == ':' then
      var c := b + 1 + TrackerIO.SpaceRun(s, b + 1);
      Some(Strip(s[c..TrackerIO.LineEnd(s, c)]))
    else None
  }

  /** The pattern tried at every position of `s`, the end included. */
  function EditMatches(s: string, tag: string): (r: seq<Option<string>>)
    ensures |r| == |s| + 1 && forall q :: 0 <= q <= |s| ==> r[q] == EditAt(s, tag, q)
  {
    seq(|s| + 1, q requires 0 <= q <= |s| => EditAt(s, tag, q))
  }

  /** No attempt before q succeeds. */
  predicate NoneBefore(rs: seq<Option<string>>, p: nat, q: nat)
    requires q <= |rs|
  {
    forall q' :: p <= q' < q ==> rs[q'].None?
  }

  /** re.search: the result of the first attempt from p that succeeds. */
  function FirstMatch(rs: seq<Option<string>>, p: nat): (r: Option<string>)
    requires p <= |rs|
    decreases |rs| - p
  {
    if p == |rs| then None
    else if rs[p].Some? then rs[p]
    else FirstMatch(rs, p + 1)
  }

  /** The search fails exactly when no attempt succeeds, and otherwise yields the first success. */
  lemma {:induction false} FirstMatchFirst(rs: seq<Option<string>>, p: nat)
    requires p <= |rs|
    ensures FirstMatch(rs, p).None? <==> NoneBefore(rs, p, |rs|)
    ensures FirstMatch(rs, p).Some? ==> exists q :: p <= q < |rs| && rs[q] == FirstMatch(rs, p) && NoneBefore(rs, p, q)
    decreases |rs| - p
  {
    if p < |rs| {
      if rs[p].Some? {
        assert NoneBefore(rs, p, p);
      } else {
        FirstMatchFirst(rs, p + 1);
        if FirstMatch(rs, p).Some? {
          var q :| p + 1 <= q < |rs| && rs[q] == FirstMatch(rs, p + 1) && NoneBefore(rs, p + 1, q);
          assert NoneBefore(rs, p, q);
        }
      }
    }
  }

  /** The first line whose metadata pattern matches. */
  function EditSearch(s: string, tag: string): Option<string> {
    FirstMatch(EditMatches(s, tag), 0)
  }

  /** The group, stripped, or "" when no line matches. */
  function EditValue(s: string, tag: string): string {
    var m := EditSearch(s, tag);
    if m.Some? then m.value else ""
  }

  /** The writers' labels are the tags in their own case, followed by ":". */
  lemma EditLabels()
    ensures TrackerIO.KeyEditLabel == TrackerIO.KeyEditLabel[..|KeyEditTagLower|] + ":"
    ensures ToLower(TrackerIO.KeyEditLabel[..|KeyEditTagLower|]) == KeyEditTagLower
    ensures TrackerIO.GridEditLabel == TrackerIO.GridEditLabel[..|GridEditTagLower|] + ":"
    ensures ToLower(TrackerIO.GridEditLabel[..|GridEditTagLower|]) == GridEditTagLower
  {
  }

  /** A metadata line as the writers produce it, at the start of a line, is matched there with its value. */
  lemma EditLineAt(pre: string, name: string, v: string, post: string, tag: string)
    requires pre == [] || pre[|pre| - 1] == '\n'
    requires (name == TrackerIO.KeyEditLabel && tag == KeyEditTagLower)
      || (name == TrackerIO.GridEditLabel && tag == GridEditTagLower)
    requires v != [] && !IsSpace(v[0]) && !IsSpace(v[|v| - 1]) && NoChar(v, '\n')
    requires post == [] || post[0] == '\n'
    ensures EditAt(pre + TrackerIO.EditLine(name, v) + post, tag, |pre|) == Some(v)
  {
    EditLabels();
    var s := pre + TrackerIO.EditLine(name, v) + post;
    var head := name[..|tag|];
    assert ToLower(head) == tag && |head| == |tag|;
    assert TrackerIO.EditLine(name, v) == (head + ":") + " " + v;
    LineFields(s, pre, head, v, post);
    EditAtFields(s, tag, |pre|, v);
  }

  /** Where the parts of a metadata line "head: v" sit in the text around it. */
  lemma LineFields(s: string, pre: string, head: string, v: string, post: string)
    requires s == pre + ((head + ":") + " " + v) + post
    ensures |pre| + |head| + 2 + |v| + |post| == |s|
    ensures s[|pre|..|pre| + |head|] == head
    ensures s[|pre| + |head|] == ':' && s[|pre| + |head| + 1] == ' '
    ensures s[|pre| + |head| + 2..|pre| + |head| + 2 + |v|] == v
    ensures post != [] ==> s[|pre| + |head| + 2 + |v|] == post[0]
    ensures pre != [] ==> s[|pre| - 1] == pre[|pre| - 1]
  {
    var c := |pre| + |head| + 2;
    assert s[c..c + |v|] == v;
  }

  /** The pattern at p, when the tag, ":", one space and the value fill the rest of that line. */
  lemma EditAtFields(s: string, tag: string, p: nat, v: string)
    requires p == 0 || (0 < p <= |s| && s[p - 1] == '\n')
    requires p + |tag| + 2 + |v| <= |s|
    requires ToLower(s[p..p + |tag|]) == tag
    requires s[p + |tag|] == ':' && s[p + |tag| + 1] == ' '
    requires s[p + |tag| + 2..p + |tag| + 2 + |v|] == v
    requires v != [] && !IsSpace(v[0]) && !IsSpace(v[|v| - 1]) && NoChar(v, '\n')
    requires p + |tag| + 2 + |v| == |s| || s[p + |tag| + 2 + |v|] == '\n'
    ensures EditAt(s, tag, p) == Some(v)
  {
    assert TagAt(s, tag, p);
    EditAfterFields(s, p + |tag|, v);
  }

  lemma EditAfterFields(s: string, a: nat, v: string)
    requires a + 2 + |v| <= |s|
    requires s[a] == ':' && s[a + 1] == ' '
    requires s[a + 2..a + 2 + |v|] == v
    requires v != [] && !IsSpace(v[0]) && !IsSpace(v[|v| - 1]) && NoChar(v, '\n')
    requires a + 2 + |v| == |s| || s[a + 2 + |v|] == '\n'
    ensures EditAfterTag(s, a) == Some(v)
  {
    assert TrackerIO.SpaceRun(s, a) == 0;
    SpaceThenValue(s, a + 1, v);
    ValueLineEnd(s, a + 2, v);
    StripNoSpaceEnds(v);
    EditAfterTagAt(s, a, v);
  }

  /** The unfolding of the pattern after a tag followed directly by ":", one space and the value. */
  lemma EditAfterTagAt(s: string, a: nat, v: string)
    requires a + 2 + |v| <= |s| && s[a] == ':' && s[a + 2..a + 2 + |v|] == v && Strip(v) == v
    requires TrackerIO.SpaceRun(s, a) == 0 && TrackerIO.SpaceRun(s, a + 1) == 1
    requires TrackerIO.LineEnd(s, a + 2) == a + 2 + |v|
    ensures EditAfterTag(s, a) == Some(v)
  {
    var c := a + 1 + TrackerIO.SpaceRun(s, a + 1);
    assert c == a + 2;
    assert s[c..TrackerIO.LineEnd(s, c)] == v;
  }

  lemma SpaceThenValue(s: string, b: nat, v: string)
    requires b + 1 + |v| <= |s| && s[b] == ' ' && s[b + 1..b + 1 + |v|] == v
    requires v != [] && !IsSpace(v[0])
    ensures TrackerIO.SpaceRun(s, b) == 1
  {
    assert s[b + 1] == v[0];
    assert TrackerIO.SpaceRun(s, b + 1) == 0;
  }

  lemma ValueLineEnd(s: string, c: nat, v: string)
    requires c + |v| <= |s| && s[c..c + |v|] == v && NoChar(v, '\n')
    requires c + |v| == |s| || s[c + |v|] == '\n'
    ensures TrackerIO.LineEnd(s, c) == c + |v|
  {
    forall i | c <= i < c + |v| ensures s[i] != '\n' {
      assert s[i] == v[i - c];
    }
    LineEndAt(s, c, |v|);
  }

  lemma LineEndAt(s: string, c: nat, n: nat)
    requires c + n <= |s|
    requires forall i :: c <= i < c + n ==> s[i] != '\n'
    requires c + n == |s| || s[c + n] == '\n'
    ensures TrackerIO.LineEnd(s, c) == c + n
    decreases n
  {
    if n > 0 { LineEndAt(s, c + 1, n - 1); }
  }

  // ---------------------------------------------------------------------
  // read_tracker_file

  /** The parsed tracker, or the empty structure when the file does not exist. */
  function TolerantRead(file: Option<string>, cwd: string): (t: Tracker)
    ensures Valid(t.keys) && Valid(t.grid)
    ensures forall k | k in t.keys.values :: KeyManager.ValidateKey(k)
    ensures forall k | k in t.grid.values :: KeyManager.ValidateKey(k)
    ensures file.None? ==> t == TrackerIO.EmptyTracker()
  {
    match file
    case None => TrackerIO.EmptyTracker()
    case Some(content) =>
      var keys := match FoldedSection(content, TrackerIO.KeyStart, TrackerIO.KeyEnd)
        case None => Empty()
        case Some(g) => Collected(KeySection(cwd), SplitLines(g));
      var grid := match FoldedSection(content, TrackerIO.GridStart, TrackerIO.GridEnd)
        case None => Empty()
        case Some(g) => Collected(GridSection, GridLines(g));
      TrackerIO.Tracker(keys, grid, EditValue(content, KeyEditTagLower), EditValue(content, GridEditTagLower))
  }

  /** read_tracker_file on the content of the file, if it exists. */
  method ReadTrackerFile(file: Option<string>, cwd: string) returns (t: Tracker)
    ensures t == TolerantRead(file, cwd)
  {
    if file.None? {
      return TrackerIO.EmptyTracker();
    }
    var content := file.value;
    var keys := Empty();
    var ks := FoldedSection(content, TrackerIO.KeyStart, TrackerIO.KeyEnd);
    if ks.Some? {
      keys := CollectLines(KeySection(cwd), SplitLines(ks.value));
    }
    var grid := Empty();
    var gs := FoldedSection(content, TrackerIO.GridStart, TrackerIO.GridEnd);
    if gs.Some? {
      grid := CollectLines(GridSection, GridLines(gs.value));
    }
    t := TrackerIO.Tracker(keys, grid, EditValue(content, KeyEditTagLower), EditValue(content, GridEditTagLower));
  }

  // ---------------------------------------------------------------------
  // aggregate_all_dependencies

  /** A directed link (row key, column key) met in one tracker's grid with one character. */
  datatype Observation = Observation(link: (string, string), dep: char, origin: string)

  /** For each directed link: the winning character and the trackers it was found in. */
  type Links = map<(string, string), (char, set<string>)>

  /** The diagonal, "no dependency" and the excluded mark never make a link. */
  predicate Unlinked(c: char) { c == DependencyGrid.DiagonalChar || c == '-' || c == 'X' }

  /** An observation of a link from `rowKey` to another key of `order`, with a linking character, in tracker `origin`. */
  predicate WithinRow(o: Observation, origin: string, order: seq<string>, rowKey: string) {
    o.link.0 == rowKey && o.link.1 in order && o.link.0 != o.link.1 && !Unlinked(o.dep) && o.origin == origin
  }

  /** An observation of a link between two distinct keys of `order`, with a linking character, in tracker `origin`. */
  predicate WithinTracker(o: Observation, origin: string, order: seq<string>) {
    o.link.0 in order && o.link.1 in order && o.link.0 != o.link.1 && !Unlinked(o.dep) && o.origin == origin
  }

  /** The links of columns 0..j of one row, in column order. */
  function CellObservations(origin: string, order: seq<string>, rowKey: string, row: seq<char>, j: nat): (r: seq<Observation>)
    requires j <= |row| == |order|
    ensures forall o | o in r :: WithinRow(o, origin, order, rowKey)
    decreases j
  {
    if j == 0 then []
    else
      CellObservations(origin, order, rowKey, row, j - 1)
      + (if rowKey == order[j - 1] || Unlinked(row[j - 1]) then []
         else [Observation((rowKey, order[j - 1]), row[j - 1], origin)])
  }

  /** One row: nothing when it is missing, empty, or not as long as the key list. */
  function RowObservations(origin: string, order: seq<string>, grid: map<string, string>, rowKey: string): (r: seq<Observation>)
    ensures forall o | o in r :: WithinRow(o, origin, order, rowKey)
  {
    if rowKey !in grid || grid[rowKey] == [] then []
    else
      var row := DependencyGrid.Decode(grid[rowKey]);
      if |row| != |order| then [] else CellObservations(origin, order, rowKey, row, |row|)
  }

  /** The rows of the first m keys of the sorted key list. */
  function RowsObservations(origin: string, order: seq<string>, grid: map<string, string>, m: nat): (r: seq<Observation>)
    requires m <= |order|
    ensures forall o | o in r :: WithinTracker(o, origin, order)
    decreases m
  {
    if m == 0 then []
    else RowsObservations(origin, order, grid, m - 1) + RowObservations(origin, order, grid, order[m - 1])
  }

  /** One tracker: nothing when it has no keys or no grid rows. */
  function TrackerObservations(origin: string, t: Tracker, order: seq<string>): (r: seq<Observation>)
    ensures forall o | o in r :: WithinTracker(o, origin, order)
  {
    if t.keys.values == map[] || t.grid.values == map[] then []
    else RowsObservations(origin, order, t.grid.values, |order|)
  }

  /** The content of a tracker file, looked up under its normalised path. */
  function TrackerFile(files: map<string, string>, path: string, cwd: string): Option<string> {
    var p := PathUtils.NormalizePath(path, cwd);
    if p in files then Some(files[p]) else None
  }

  /** What read_tracker_file gives for a tracker path. */
  function TrackerData(files: map<string, string>, path: string, cwd: string): Tracker {
    TolerantRead(TrackerFile(files, path, cwd), cwd)
  }

  /** What read_tracker_file gives for each tracker path, in order. */
  function TrackersRead(paths: seq<string>, files: map<string, string>, cwd: string): (ts: seq<Tracker>)
    ensures |ts| == |paths|
    ensures forall i | 0 <= i < |paths| :: ts[i] == TrackerData(files, paths[i], cwd)
    ensures forall i | 0 <= i < |paths| :: Valid(ts[i].keys)
  {
    seq(|paths|, i requires 0 <= i < |paths| => TrackerData(files, paths[i], cwd))
  }

  /**
   * Every link met in the first n trackers, in the order the loops meet
   * them: tracker i is at `paths[i]` and reads as `ts[i]`; `sortKeys`
   * stands for the hierarchical key sort.
   */
  function AllObservations(paths: seq<string>, ts: seq<Tracker>, sortKeys: seq<string> -> seq<string>, n: nat)
    : (r: seq<Observation>)
    requires n <= |paths| == |ts|
    decreases n
  {
    if n == 0 then []
    else
      AllObservations(paths, ts, sortKeys, n - 1)
      + TrackerObservations(paths[n - 1], ts[n - 1], sortKeys(ts[n - 1].keys.order))
  }

  /**
   * One link met: a character of higher priority than the stored one
   * replaces it and restarts the origins at this tracker, one of equal
   * priority is stored and adds this tracker, a lower one changes nothing.
   * A link not yet stored counts as priority -1, and a character without
   * a priority (KeyError) is skipped.
   */
  function Observe(links: Links, o: Observation, priority: char -> Option<int>): Links {
    var current := priority(o.dep);
    var existing := if o.link in links then priority(links[o.link].0) else Some(-1);
    if current.None? || existing.None? then links
    else if current.value > existing.value then links[o.link := (o.dep, {o.origin})]
    else if current.value == existing.value then
      links[o.link := (o.dep, (if o.link in links then links[o.link].1 else {}) + {o.origin})]
    else links
  }

  /** The links after meeting `obs` in order, starting from `init`. */
  function Fold(init: Links, obs: seq<Observation>, priority: char -> Option<int>): Links
    decreases |obs|
  {
    if obs == [] then init else Observe(Fold(init, obs[..|obs| - 1], priority), obs[|obs| - 1], priority)
  }

  lemma {:induction false} FoldAppend(init: Links, a: seq<Observation>, b: seq<Observation>, priority: char -> Option<int>)
    ensures Fold(init, a + b, priority) == Fold(Fold(init, a, priority), b, priority)
    decreases |b|
  {
    if b == [] {
      assert a + b == a;
    } else {
      var b' := b[..|b| - 1];
      assert (a + b)[..|a + b| - 1] == a + b';
      assert (a + b)[|a + b| - 1] == b[|b| - 1];
      FoldAppend(init, a, b', priority);
    }
  }

  lemma {:induction false} FoldSnoc(init: Links, a: seq<Observation>, o: Observation, priority: char -> Option<int>)
    ensures Fold(init, a + [o], priority) == Observe(Fold(init, a, priority), o, priority)
  {
    assert (a + [o])[..|a|] == a;
  }

  // The aggregation as a whole, against its meaning.

  /** Observation i is of `link` with a character that has a priority. */
  predicate Seen(obs: seq<Observation>, link: (string, string), priority: char -> Option<int>, i: int) {
    0 <= i < |obs| && obs[i].link == link && priority(obs[i].dep).Some?
  }

  /** Observation i is of `link` with a character of priority P. */
  predicate SeenAt(obs: seq<Observation>, link: (string, string), priority: char -> Option<int>, i: int, pr: int) {
    0 <= i < |obs| && obs[i].link == link && priority(obs[i].dep) == Some(pr)
  }

  /** No observation of `link` has a priority above P. */
  ghost predicate Bounded(obs: seq<Observation>, link: (string, string), priority: char -> Option<int>, pr: int) {
    forall i :: Seen(obs, link, priority, i) ==> priority(obs[i].dep).value <= pr
  }

  /** The trackers in which `link` was met with a character of priority P. */
  function Origins(obs: seq<Observation>, link: (string, string), priority: char -> Option<int>, pr: int): set<string> {
    set i | 0 <= i < |obs| && SeenAt(obs, link, priority, i, pr) :: obs[i].origin
  }

  /** `c` is the character of the last observation of `link` with priority P. */
  ghost predicate LastAt(obs: seq<Observation>, link: (string, string), priority: char -> Option<int>, pr: int, c: char) {
    exists i :: SeenAt(obs, link, priority, i, pr) && obs[i].dep == c
      && forall j :: i < j < |obs| ==> !SeenAt(obs, link, priority, j, pr)
  }

  predicate NonNegative(priority: char -> Option<int>) {
    forall c :: priority(c).Some? ==> priority(c).value >= 0
  }

  /** The stored entry has the highest priority met, that priority's last character and origins. */
  ghost predicate Winner(entry: (char, set<string>), obs: seq<Observation>, link: (string, string), priority: char -> Option<int>) {
    priority(entry.0).Some?
    && Bounded(obs, link, priority, priority(entry.0).value)
    && entry.1 == Origins(obs, link, priority, priority(entry.0).value)
    && LastAt(obs, link, priority, priority(entry.0).value, entry.0)
  }

  /** The facts about one link that the aggregation keeps, one observation after another. */
  ghost predicate Summarises(r: Links, obs: seq<Observation>, link: (string, string), priority: char -> Option<int>) {
    (link in r <==> exists i :: Seen(obs, link, priority, i))
    && (link in r ==> Winner(r[link], obs, link, priority))
  }

  /**
   * The aggregated links, against their meaning: a link is present exactly
   * when it was met with a character that has a priority; its character
   * has the highest priority it was met with, and is the last character
   * met with that priority; its origins are exactly the trackers in which
   * it was met with that priority.
   */
  lemma {:induction false} Aggregated(obs: seq<Observation>, link: (string, string), priority: char -> Option<int>)
    requires NonNegative(priority)
    ensures Summarises(Fold(map[], obs, priority), obs, link, priority)
    decreases |obs|
  {
    if obs == [] {
      assert !exists i :: Seen(obs, link, priority, i);
    } else {
      var init := obs[..|obs| - 1];
      var o := obs[|obs| - 1];
      assert obs == init + [o];
      Aggregated(init, link, priority);
      var before := Fold(map[], init, priority);
      if o.link != link || priority(o.dep).None? {
        ObserveOther(before, init, o, link, priority);
      } else if link !in before {
        ObserveFirst(before, init, o, link, priority);
      } else {
        ObserveAgain(before, init, o, link, priority);
      }
    }
  }

  lemma {:induction false} OriginsSnoc(init: seq<Observation>, o: Observation, link: (string, string), priority: char -> Option<int>, pr: int)
    ensures Origins(init + [o], link, priority, pr)
      == Origins(init, link, priority, pr) + (if o.link == link && priority(o.dep) == Some(pr) then {o.origin} else {})
  {
    var obs := init + [o];
    forall x | x in Origins(obs, link, priority, pr)
      ensures x in Origins(init, link, priority, pr) + (if o.link == link && priority(o.dep) == Some(pr) then {o.origin} else {})
    {
      var i :| 0 <= i < |obs| && SeenAt(obs, link, priority, i, pr) && obs[i].origin == x;
      if i < |init| { assert SeenAt(init, link, priority, i, pr); }
    }
    forall x | x in Origins(init, link, priority, pr) ensures x in Origins(obs, link, priority, pr) {
      var i :| 0 <= i < |init| && SeenAt(init, link, priority, i, pr) && init[i].origin == x;
      assert SeenAt(obs, link, priority, i, pr);
    }
    if o.link == link && priority(o.dep) == Some(pr) {
      assert SeenAt(obs, link, priority, |init|, pr);
    }
  }

  /** An observation of another link, or one without a priority, leaves the link's facts as they were. */
  lemma {:induction false} ObserveOther(before: Links, init: seq<Observation>, o: Observation, link: (string, string), priority: char -> Option<int>)
    requires Summarises(before, init, link, priority)
    requires o.link != link || priority(o.dep).None?
    ensures Summarises(Observe(before, o, priority), init + [o], link, priority)
  {
    var obs := init + [o];
    var r := Observe(before, o, priority);
    assert link in r <==> link in before;
    assert link in r ==> r[link] == before[link];
    assert !Seen(obs, link, priority, |init|);
    forall i ensures Seen(obs, link, priority, i) <==> Seen(init, link, priority, i) {
      if 0 <= i < |init| { assert obs[i] == init[i]; }
    }
    if link in r {
      var pr := priority(r[link].0).value;
      OriginsSnoc(init, o, link, priority, pr);
      var i :| SeenAt(init, link, priority, i, pr) && init[i].dep == r[link].0
        && forall j :: i < j < |init| ==> !SeenAt(init, link, priority, j, pr);
      assert SeenAt(obs, link, priority, i, pr) && obs[i].dep == r[link].0;
      forall j | i < j < |obs| ensures !SeenAt(obs, link, priority, j, pr) {
        if j < |init| { assert !SeenAt(init, link, priority, j, pr); }
      }
    }
  }

  /** The first observation of a link with a priority stores it with that tracker alone. */
  lemma {:induction false} ObserveFirst(before: Links, init: seq<Observation>, o: Observation, link: (string, string), priority: char -> Option<int>)
    requires NonNegative(priority)
    requires Summarises(before, init, link, priority)
    requires o.link == link && priority(o.dep).Some? && link !in before
    ensures Summarises(Observe(before, o, priority), init + [o], link, priority)
  {
    var obs := init + [o];
    var r := Observe(before, o, priority);
    var pr := priority(o.dep).value;
    assert r[link] == (o.dep, {o.origin});
    assert Seen(obs, link, priority, |init|);
    forall i | 0 <= i < |init| ensures !Seen(obs, link, priority, i) && !SeenAt(init, link, priority, i, pr) {
      assert obs[i] == init[i];
      assert !Seen(init, link, priority, i);
    }
    OriginsSnoc(init, o, link, priority, pr);
    assert Origins(init, link, priority, pr) == {};
    assert SeenAt(obs, link, priority, |init|, pr);
  }

  /** A further observation of a stored link: a higher priority restarts, an equal one adds, a lower one is ignored. */
  lemma {:induction false} ObserveAgain(before: Links, init: seq<Observation>, o: Observation, link: (string, string), priority: char -> Option<int>)
    requires Summarises(before, init, link, priority)
    requires o.link == link && priority(o.dep).Some? && link in before
    ensures Summarises(Observe(before, o, priority), init + [o], link, priority)
  {
    var obs := init + [o];
    var r := Observe(before, o, priority);
    var old_ := priority(before[link].0).value;
    var cur := priority(o.dep).value;
    assert Seen(obs, link, priority, |init|);
    forall i | Seen(init, link, priority, i) ensures Seen(obs, link, priority, i) {
      assert obs[i] == init[i];
    }
    var w :| SeenAt(init, link, priority, w, old_) && init[w].dep == before[link].0
      && forall j :: w < j < |init| ==> !SeenAt(init, link, priority, j, old_);
    if cur > old_ {
      assert r[link] == (o.dep, {o.origin});
      OriginsSnoc(init, o, link, priority, cur);
      forall i | 0 <= i < |init| ensures !SeenAt(init, link, priority, i, cur) {
        assert Seen(init, link, priority, i) ==> priority(init[i].dep).value <= old_;
      }
      assert Origins(init, link, priority, cur) == {};
      forall i | Seen(obs, link, priority, i) ensures priority(obs[i].dep).value <= cur {
        if i < |init| { assert Seen(init, link, priority, i); }
      }
      assert SeenAt(obs, link, priority, |init|, cur);
    } else if cur == old_ {
      assert r[link] == (o.dep, before[link].1 + {o.origin});
      OriginsSnoc(init, o, link, priority, cur);
      forall i | Seen(obs, link, priority, i) ensures priority(obs[i].dep).value <= cur {
        if i < |init| { assert Seen(init, link, priority, i); }
      }
      assert SeenAt(obs, link, priority, |init|, cur);
    } else {
      assert r == before;
      OriginsSnoc(init, o, link, priority, old_);
      forall i | Seen(obs, link, priority, i) ensures priority(obs[i].dep).value <= old_ {
        if i < |init| { assert Seen(init, link, priority, i); }
      }
      assert SeenAt(obs, link, priority, w, old_);
      forall j | w < j < |obs| ensures !SeenAt(obs, link, priority, j, old_) {
        if j < |init| { assert !SeenAt(init, link, priority, j, old_); }
      }
    }
  }

  // The loops of aggregate_all_dependencies.

  /** The priority comparison for one link, written as the loop body does it. */
  method ObserveLink(links0: Links, o: Observation, priority: char -> Option<int>) returns (links: Links)
    ensures links == Observe(links0, o, priority)
  {
    links := links0;
    var current := priority(o.dep);
    var existing := if o.link in links then priority(links[o.link].0) else Some(-1);
    if current.Some? && existing.Some? {
      if current.value > existing.value {
        links := links[o.link := (o.dep, {o.origin})];
      } else if current.value == existing.value {
        var origins := if o.link in links then links[o.link].1 else {};
        links := links[o.link := (o.dep, origins + {o.origin})];
      }
    }
  }

  /** Column j either adds nothing or adds its one link. */
  lemma {:induction false} FoldCell(links0: Links, origin: string, order: seq<string>, rowKey: string, row: seq<char>, j: nat,
                 priority: char -> Option<int>)
    requires j < |row| == |order|
    ensures var before := Fold(links0, CellObservations(origin, order, rowKey, row, j), priority);
      Fold(links0, CellObservations(origin, order, rowKey, row, j + 1), priority)
      == if rowKey == order[j] || Unlinked(row[j]) then before
         else Observe(before, Observation((rowKey, order[j]), row[j], origin), priority)
  {
    var done := CellObservations(origin, order, rowKey, row, j);
    if rowKey == order[j] || Unlinked(row[j]) {
      assert CellObservations(origin, order, rowKey, row, j + 1) == done;
    } else {
      FoldSnoc(links0, done, Observation((rowKey, order[j]), row[j], origin), priority);
    }
  }

  /** The columns of one row, in order. */
  method AggregateRow(links0: Links, origin: string, order: seq<string>, rowKey: string, row: seq<char>,
                      priority: char -> Option<int>) returns (links: Links)
    requires |row| == |order|
    ensures links == Fold(links0, CellObservations(origin, order, rowKey, row, |row|), priority)
  {
    links := links0;
    var j := 0;
    while j < |row|
      invariant j <= |row|
      invariant links == Fold(links0, CellObservations(origin, order, rowKey, row, j), priority)
    {
      FoldCell(links0, origin, order, rowKey, row, j, priority);
      var colKey := order[j];
      var dep := row[j];
      if rowKey != colKey && !Unlinked(dep) {
        links := ObserveLink(links, Observation((rowKey, colKey), dep, origin), priority);
      }
      j := j + 1;
    }
  }

  /** Row m is met after rows 0..m. */
  lemma {:induction false} FoldRows(links0: Links, origin: string, order: seq<string>, grid: map<string, string>, m: nat,
                 priority: char -> Option<int>)
    requires m < |order|
    ensures Fold(links0, RowsObservations(origin, order, grid, m + 1), priority)
      == Fold(Fold(links0, RowsObservations(origin, order, grid, m), priority),
              RowObservations(origin, order, grid, order[m]), priority)
  {
    FoldAppend(links0, RowsObservations(origin, order, grid, m), RowObservations(origin, order, grid, order[m]), priority);
  }

  /** The loop step of AggregateTracker: row m met after rows 0..m. */
  method AggregateNextRow(links0: Links, before: Links, origin: string, grid: map<string, string>, order: seq<string>,
                          m: nat, priority: char -> Option<int>) returns (links: Links)
    requires m < |order|
    requires before == Fold(links0, RowsObservations(origin, order, grid, m), priority)
    ensures links == Fold(links0, RowsObservations(origin, order, grid, m + 1), priority)
  {
    links := AggregateGridRow(before, origin, grid, order, order[m], priority);
    RowsStep(links0, origin, order, grid, m, priority, before, links);
  }

  /** Meeting row m after rows 0..m. */
  lemma RowsStep(links0: Links, origin: string, order: seq<string>, grid: map<string, string>, m: nat,
                 priority: char -> Option<int>, before: Links, after: Links)
    requires m < |order|
    requires before == Fold(links0, RowsObservations(origin, order, grid, m), priority)
    requires after == Fold(before, RowObservations(origin, order, grid, order[m]), priority)
    ensures after == Fold(links0, RowsObservations(origin, order, grid, m + 1), priority)
  {
    FoldRows(links0, origin, order, grid, m, priority);
  }

  /** One row: decompressed and, when as long as the key list, met column by column. */
  method AggregateGridRow(links0: Links, origin: string, grid: map<string, string>, order: seq<string>,
                          rowKey: string, priority: char -> Option<int>) returns (links: Links)
    ensures links == Fold(links0, RowObservations(origin, order, grid, rowKey), priority)
  {
    links := links0;
    if rowKey in grid && grid[rowKey] != [] {
      var row := DependencyGrid.Decompress(grid[rowKey]);
      if |row| == |order| {
        links := AggregateRow(links, origin, order, rowKey, row, priority);
      }
    }
  }

  /** The rows of one tracker, in the sorted key order. */
  method AggregateTracker(links0: Links, origin: string, grid: map<string, string>, order: seq<string>,
                          priority: char -> Option<int>) returns (links: Links)
    ensures links == Fold(links0, RowsObservations(origin, order, grid, |order|), priority)
  {
    links := links0;
    var m := 0;
    while m < |order|
      invariant m <= |order|
      invariant links == Fold(links0, RowsObservations(origin, order, grid, m), priority)
    {
      links := AggregateNextRow(links0, links, origin, grid, order, m, priority);
      m := m + 1;
    }
  }

  /** Tracker i is met after trackers 0..i. */
  lemma {:induction false} FoldTrackers(paths: seq<string>, ts: seq<Tracker>, sortKeys: seq<string> -> seq<string>, i: nat,
                     priority: char -> Option<int>)
    requires i < |paths| == |ts|
    ensures Fold(map[], AllObservations(paths, ts, sortKeys, i + 1), priority)
      == Fold(Fold(map[], AllObservations(paths, ts, sortKeys, i), priority),
              TrackerObservations(paths[i], ts[i], sortKeys(ts[i].keys.order)), priority)
  {
    FoldAppend(map[], AllObservations(paths, ts, sortKeys, i),
               TrackerObservations(paths[i], ts[i], sortKeys(ts[i].keys.order)), priority);
  }

  /** One tracker: skipped when it has no keys or no grid rows. */
  method AggregateOne(links0: Links, origin: string, t: Tracker, order: seq<string>,
                      priority: char -> Option<int>) returns (links: Links)
    ensures links == Fold(links0, TrackerObservations(origin, t, order), priority)
  {
    links := links0;
    if t.keys.values != map[] && t.grid.values != map[] {
      links := AggregateTracker(links, origin, t.grid.values, order, priority);
    }
  }

  /** Reads the tracker at `paths[i]`. */
  method ReadTrackerAt(paths: seq<string>, files: map<string, string>, cwd: string, i: nat) returns (t: Tracker)
    requires i < |paths|
    ensures t == TrackersRead(paths, files, cwd)[i]
  {
    t := ReadTrackerFile(TrackerFile(files, paths[i], cwd), cwd);
  }

  /**
   * aggregate_all_dependencies over the tracker paths in the order they
   * are visited; `files` maps a path to its content, `sortKeys` stands for
   * the hierarchical key sort and `priority` for the configured character
   * priorities (None where the lookup raises KeyError).
   */
  method AggregateAllDependencies(paths: seq<string>, files: map<string, string>, cwd: string,
                                  sortKeys: seq<string> -> seq<string>, priority: char -> Option<int>)
    returns (links: Links)
    ensures links == Fold(map[], AllObservations(paths, TrackersRead(paths, files, cwd), sortKeys, |paths|), priority)
  {
    ghost var ts := TrackersRead(paths, files, cwd);
    links := map[];
    var i := 0;
    while i < |paths|
      invariant i <= |paths|
      invariant links == Fold(map[], AllObservations(paths, ts, sortKeys, i), priority)
    {
      FoldTrackers(paths, ts, sortKeys, i, priority);
      var t := ReadTrackerAt(paths, files, cwd, i);
      links := AggregateOne(links, paths[i], t, sortKeys(t.keys.order), priority);
      i := i + 1;
    }
  }

  /** `sortKeys` only reorders: every key it returns is one it was given. */
  ghost predicate OnlyGivenKeys(sortKeys: seq<string> -> seq<string>) {
    forall ks: seq<string>, k: string :: k in sortKeys(ks) ==> k in ks
  }

  /** Both ends of the link are keys defined in tracker `t`. */
  predicate DefinesBoth(t: Tracker, link: (string, string)) {
    link.0 in t.keys.values && link.1 in t.keys.values
  }

  /** The observation is of two distinct keys of tracker `t`, found at `path`, with a linking character. */
  predicate DefinedIn(o: Observation, path: string, t: Tracker) {
    DefinesBoth(t, o.link) && o.link.0 != o.link.1 && !Unlinked(o.dep) && o.origin == path
  }

  /** Every link met in one tracker joins two distinct keys that tracker defines. */
  lemma {:induction false} TrackerDefined(path: string, t: Tracker, sortKeys: seq<string> -> seq<string>, o: Observation)
    requires OnlyGivenKeys(sortKeys) && Valid(t.keys)
    requires o in TrackerObservations(path, t, sortKeys(t.keys.order))
    ensures DefinedIn(o, path, t)
  {
    var order := sortKeys(t.keys.order);
    assert WithinTracker(o, path, order);
    assert o.link.0 in t.keys.order && o.link.1 in t.keys.order;
  }

  /** Every link met in the first n trackers was met in one of them. */
  lemma {:induction false} ObservationFrom(paths: seq<string>, ts: seq<Tracker>,
                                           sortKeys: seq<string> -> seq<string>, n: nat, o: Observation)
    requires n <= |paths| == |ts|
    requires o in AllObservations(paths, ts, sortKeys, n)
    ensures exists i :: 0 <= i < n && o in TrackerObservations(paths[i], ts[i], sortKeys(ts[i].keys.order))
    decreases n
  {
    var earlier := AllObservations(paths, ts, sortKeys, n - 1);
    var last := TrackerObservations(paths[n - 1], ts[n - 1], sortKeys(ts[n - 1].keys.order));
    assert AllObservations(paths, ts, sortKeys, n) == earlier + last;
    if o in earlier {
      ObservationFrom(paths, ts, sortKeys, n - 1, o);
      var i :| 0 <= i < n - 1 && o in TrackerObservations(paths[i], ts[i], sortKeys(ts[i].keys.order));
      assert 0 <= i < n;
    } else {
      assert o in last;
    }
  }

  /** Every link met in the first n trackers joins two distinct keys defined in the tracker that has it. */
  lemma ObservationsDefined(paths: seq<string>, ts: seq<Tracker>,
                            sortKeys: seq<string> -> seq<string>, n: nat, o: Observation)
    requires n <= |paths| == |ts|
    requires OnlyGivenKeys(sortKeys)
    requires forall i | 0 <= i < |ts| :: Valid(ts[i].keys)
    requires o in AllObservations(paths, ts, sortKeys, n)
    ensures exists i :: 0 <= i < n && DefinedIn(o, paths[i], ts[i])
  {
    ObservationFrom(paths, ts, sortKeys, n, o);
    var i :| 0 <= i < n && o in TrackerObservations(paths[i], ts[i], sortKeys(ts[i].keys.order));
    TrackerDefined(paths[i], ts[i], sortKeys, o);
  }

  /** The origins recorded for a priority are tracker paths. */
  lemma {:induction false} OriginsInPaths(paths: seq<string>, ts: seq<Tracker>, sortKeys: seq<string> -> seq<string>,
                       link: (string, string), priority: char -> Option<int>, pr: int)
    requires |paths| == |ts|
    requires OnlyGivenKeys(sortKeys)
    requires forall i | 0 <= i < |ts| :: Valid(ts[i].keys)
    ensures Origins(AllObservations(paths, ts, sortKeys, |paths|), link, priority, pr) <= set p | p in paths
  {
    var obs := AllObservations(paths, ts, sortKeys, |paths|);
    forall p | p in Origins(obs, link, priority, pr) ensures p in paths {
      var k :| 0 <= k < |obs| && SeenAt(obs, link, priority, k, pr) && obs[k].origin == p;
      ObservationsDefined(paths, ts, sortKeys, |paths|, obs[k]);
    }
  }

  /** The stored character was met in some tracker, between two keys it defines. */
  lemma {:induction false} WinnerDefined(paths: seq<string>, ts: seq<Tracker>, sortKeys: seq<string> -> seq<string>,
                      link: (string, string), priority: char -> Option<int>, e: (char, set<string>))
    requires |paths| == |ts|
    requires OnlyGivenKeys(sortKeys)
    requires forall i | 0 <= i < |ts| :: Valid(ts[i].keys)
    requires Winner(e, AllObservations(paths, ts, sortKeys, |paths|), link, priority)
    ensures link.0 != link.1 && !Unlinked(e.0) && e.1 != {}
    ensures exists i :: 0 <= i < |paths| && DefinesBoth(ts[i], link)
  {
    var obs := AllObservations(paths, ts, sortKeys, |paths|);
    var pr := priority(e.0).value;
    assert LastAt(obs, link, priority, pr, e.0);
    var w :| SeenAt(obs, link, priority, w, pr) && obs[w].dep == e.0;
    ObservationsDefined(paths, ts, sortKeys, |paths|, obs[w]);
    assert obs[w].origin in Origins(obs, link, priority, pr);
  }

  /**
   * Every aggregated link joins two distinct keys both defined in one of
   * the trackers, never carries the diagonal, "-" or "X", and has a
   * non-empty set of origins drawn from the tracker paths.
   */
  lemma {:induction false} AggregatedLinksDefined(paths: seq<string>, files: map<string, string>, cwd: string,
                               sortKeys: seq<string> -> seq<string>, priority: char -> Option<int>, link: (string, string))
    requires NonNegative(priority) && OnlyGivenKeys(sortKeys)
    requires link in Fold(map[], AllObservations(paths, TrackersRead(paths, files, cwd), sortKeys, |paths|), priority)
    ensures var e := Fold(map[], AllObservations(paths, TrackersRead(paths, files, cwd), sortKeys, |paths|), priority)[link];
      link.0 != link.1 && !Unlinked(e.0) && e.1 != {} && e.1 <= set p | p in paths
    ensures exists i :: 0 <= i < |paths| && DefinesBoth(TrackerData(files, paths[i], cwd), link)
  {
    var ts := TrackersRead(paths, files, cwd);
    var obs := AllObservations(paths, ts, sortKeys, |paths|);
    var e := Fold(map[], obs, priority)[link];
    Aggregated(obs, link, priority);
    WinnerDefined(paths, ts, sortKeys, link, priority, e);
    OriginsInPaths(paths, ts, sortKeys, link, priority, priority(e.0).value);
    var i :| 0 <= i < |paths| && DefinesBoth(ts[i], link);
    assert DefinesBoth(TrackerData(files, paths[i], cwd), link);
  }
}
