// The tracker file format: key definitions, two metadata lines and the
// grid, read from and written to the text of a tracker file.  A file is
// given as its content (None when it does not exist).
module TrackerIO {
  import opened Outcomes
  import opened Text
  import opened Dicts
  import opened Lines
  import opened PathUtils
  import KeyManager
  import NaturalOrder
  import DependencyGrid

  const KeyStart := "---KEY_DEFINITIONS_START---"
  const KeyEnd := "---KEY_DEFINITIONS_END---"
  const KeyHeader := "Key Definitions:"
  const GridStart := "---GRID_START---"
  const GridEnd := "---GRID_END---"
  const KeyEditLabel := "last_KEY_edit:"
  const GridEditLabel := "last_GRID_edit:"

  /** What read_tracker_file returns: key definitions, grid rows and the two edit markers. */
  datatype Tracker = Tracker(keys: Dict<string>, grid: Dict<string>, lastKeyEdit: string, lastGridEdit: string)

  /** The structure returned for a missing file or any parse failure. */
  function EmptyTracker(): (t: Tracker)
    ensures t.keys.values == map[] && t.grid.values == map[]
    ensures Valid(t.keys) && Valid(t.grid)
  {
    Tracker(Empty(), Empty(), "", "")
  }

  // ---------------------------------------------------------------------
  // get_tracker_path

  const MainTrackerName := "dependencytracker.md"
  const DocTrackerName := "doctracker.md"
  const MiniTrackerName := "mini_tracker.md"

  /**
   * get_tracker_path: the main tracker in the memory directory, the doc
   * tracker in the doc directory (both under the normalised project
   * directory), a mini tracker in its module directory.  `memoryDir` and
   * `docDir` are the configured paths.
   */
  function GetTrackerPath(projectDir: string, trackerType: string, modulePath: Option<string>,
                          memoryDir: string, docDir: string, cwd: string): (r: Result<string>)
    ensures r.Err? <==> !(trackerType in {"main", "doc"} || (trackerType == "mini" && modulePath.Some? && modulePath.value != []))
    ensures r.Err? ==> r.error.ValueError?
    ensures r.Ok? && trackerType == "main" ==> InDirectory(r.value, Join2(NormalizePath(projectDir, cwd), memoryDir), MainTrackerName)
    ensures r.Ok? && trackerType == "doc" ==> InDirectory(r.value, Join2(NormalizePath(projectDir, cwd), docDir), DocTrackerName)
    ensures r.Ok? && trackerType == "mini" ==> InDirectory(r.value, modulePath.value, MiniTrackerName)
  {
    var project := NormalizePath(projectDir, cwd);
    if trackerType == "main" then
      JoinInDirectory(Join2(project, memoryDir), MainTrackerName);
      Ok(Join2(Join2(project, memoryDir), MainTrackerName))
    else if trackerType == "doc" then
      JoinInDirectory(Join2(project, docDir), DocTrackerName);
      Ok(Join2(Join2(project, docDir), DocTrackerName))
    else if trackerType == "mini" then
      if modulePath.None? || modulePath.value == [] then Err(ValueError("module_path must be provided for mini-trackers"))
      else
        JoinInDirectory(modulePath.value, MiniTrackerName);
        Ok(Join2(modulePath.value, MiniTrackerName))
    else Err(ValueError("Unknown tracker type"))
  }

  /** `path` names the file `name` directly inside `dir`. */
  predicate InDirectory(path: string, dir: string, name: string) {
    path == dir + [Sep] + name || ((dir == [] || EndsWith(dir, [Sep])) && path == dir + name)
  }

  lemma JoinInDirectory(dir: string, name: string)
    requires name != [] && name[0] != Sep
    ensures InDirectory(Join2(dir, name), dir, name)
  {
  }

  // ---------------------------------------------------------------------
  // read_tracker_file

  /**
   * re.search(start + "\n(.*?)\n" + end, content, re.DOTALL): the text
   * between the first start marker line and the first end marker after it.
   */
  function Section(s: string, start: string, end: string): (r: Option<string>)
  {
    match Find(s, start + "\n", 0)
    case None => None
    case Some(i) =>
      match Find(s, "\n" + end, i + |start| + 1)
      case None => None
      case Some(j) => Some(s[i + |start| + 1..j])
  }

  /**
   * One line of the key section: the header and lines without ": " are
   * skipped; `k, v = line.strip().split(": ", 1)` fails with ValueError
   * when the stripped line no longer holds ": "; otherwise keys[k] is the
   * normalised path.
   */
  function KeyLineStep(acc: Dict<string>, line: string, cwd: string): (r: Result<Dict<string>>)
    requires Valid(acc)
    ensures r.Ok? ==> Valid(r.value)
  {
    if StartsWith(line, KeyHeader) || !Contains(line, ": ") then Ok(acc)
    else
      var parts := SplitOnce(Strip(line), ": ");
      if |parts| == 1 then Err(ValueError("not enough values to unpack"))
      else Ok(Put(acc, parts[0], NormalizePath(parts[1], cwd)))
  }

  function ParseKeyLines(acc: Dict<string>, ls: seq<string>, cwd: string): (r: Result<Dict<string>>)
    requires Valid(acc)
    ensures r.Ok? ==> Valid(r.value)
    decreases |ls|
  {
    if ls == [] then Ok(acc)
    else
      match KeyLineStep(acc, ls[0], cwd)
      case Err(e) => Err(e)
      case Ok(next) => ParseKeyLines(next, ls[1..], cwd)
  }

  /** One grid line after the "X" header: `k, v = line.strip().split(" = ", 1)` when it holds " = ". */
  function GridLineStep(acc: Dict<string>, line: string): (r: Result<Dict<string>>)
    requires Valid(acc)
    ensures r.Ok? ==> Valid(r.value)
  {
    if !Contains(line, " = ") then Ok(acc)
    else
      var parts := SplitOnce(Strip(line), " = ");
      if |parts| == 1 then Err(ValueError("not enough values to unpack"))
      else Ok(Put(acc, parts[0], parts[1]))
  }

  function ParseGridLines(acc: Dict<string>, ls: seq<string>): (r: Result<Dict<string>>)
    requires Valid(acc)
    ensures r.Ok? ==> Valid(r.value)
    decreases |ls|
  {
    if ls == [] then Ok(acc)
    else
      match GridLineStep(acc, ls[0])
      case Err(e) => Err(e)
      case Ok(next) => ParseGridLines(next, ls[1..])
  }

  /** The grid section's rows, read only when its first line is the "X " header. */
  function ParseGridSection(ls: seq<string>): (r: Result<Dict<string>>)
    ensures r.Ok? ==> Valid(r.value)
  {
    if ls != [] && StartsWith(ls[0], "X ") then ParseGridLines(Empty(), ls[1..]) else Ok(Empty())
  }

  // The metadata regex `label\s*(.+)`.

  /** The number of whitespace characters (\s, line feeds included) from position k. */
  function SpaceRun(s: string, k: nat): (n: nat)
    requires k <= |s|
    ensures k + n <= |s|
    ensures forall i :: k <= i < k + n ==> IsSpace(s[i])
    ensures k + n < |s| ==> !IsSpace(s[k + n])
    decreases |s| - k
  {
    if k == |s| || !IsSpace(s[k]) then 0 else 1 + SpaceRun(s, k + 1)
  }

  /** The position of the first line feed at or after k, or the end of the text. */
  function LineEnd(s: string, k: nat): (e: nat)
    requires k <= |s|
    ensures k <= e <= |s|
    ensures forall i :: k <= i < e ==> s[i] != '\n'
    ensures e < |s| ==> s[e] == '\n'
    decreases |s| - k
  {
    if k == |s| || s[k] == '\n' then k else LineEnd(s, k + 1)
  }

  /** The last position in [k, e) whose character is not a line feed. */
  function LastNonFeed(s: string, k: nat, e: nat): (r: Option<nat>)
    requires k <= e <= |s|
    ensures r.Some? ==> k <= r.value < e && s[r.value] != '\n' && forall i :: r.value < i < e ==> s[i] == '\n'
    ensures r.None? ==> forall i :: k <= i < e ==> s[i] == '\n'
    decreases e - k
  {
    if e == k then None else if s[e - 1] != '\n' then Some(e - 1) else LastNonFeed(s, k, e - 1)
  }

  /**
   * `\s*(.+)` matched at position k.  The greedy whitespace run is given
   * back one character at a time until `.+` (anything but a line feed)
   * can match: when the run stops before the end of the text, the group is
   * the rest of that line; when it reaches the end, the group is the last
   * character of the run that is not a line feed.
   */
  function MetaGroup(s: string, k: nat): (r: Option<string>)
    requires k <= |s|
  {
    var e := k + SpaceRun(s, k);
    if e < |s| then Some(s[e..LineEnd(s, e)])
    else
      match LastNonFeed(s, k, e)
      case None => None
      case Some(m) => Some([s[m]])
  }

  /** re.search(tag + r'\s*(.+)', s).group(1): the first occurrence of the tag where the rest matches. */
  function MetaSearch(s: string, tag: string, from: nat): (r: Option<string>)
    requires tag != []
    decreases |s| - from
  {
    match Find(s, tag, from)
    case None => None
    case Some(i) =>
      var g := MetaGroup(s, i + |tag|);
      if g.Some? then g else MetaSearch(s, tag, i + 1)
  }

  /** The parsing inside read_tracker_file's try block. */
  function ParseTracker(content: string, cwd: string): (r: Result<Tracker>)
    ensures r.Ok? ==> Valid(r.value.keys) && Valid(r.value.grid)
  {
    var keys := match Section(content, KeyStart, KeyEnd)
      case None => Ok(Empty())
      case Some(g) => ParseKeyLines(Empty(), SplitLines(g), cwd);
    var grid := match Section(content, GridStart, GridEnd)
      case None => Ok(Empty())
      case Some(g) => ParseGridSection(SplitLines(g));
    var lke := MetaSearch(content, KeyEditLabel, 0);
    var lge := MetaSearch(content, GridEditLabel, 0);
    if keys.Err? then Err(keys.error)
    else if grid.Err? then Err(grid.error)
    else Ok(Tracker(keys.value, grid.value, if lke.Some? then lke.value else "", if lge.Some? then lge.value else ""))
  }

  /** read_tracker_file: the parsed tracker, or the empty structure for a missing file or a failed parse. */
  function ReadTrackerFile(file: Option<string>, cwd: string): (t: Tracker)
    ensures Valid(t.keys) && Valid(t.grid)
    ensures file.None? ==> t == EmptyTracker()
    ensures file.Some? && ParseTracker(file.value, cwd).Err? ==> t == EmptyTracker()
  {
    match file
    case None => EmptyTracker()
    case Some(content) =>
      match ParseTracker(content, cwd)
      case Err(_) => EmptyTracker()
      case Ok(t) => t
  }

  // ---------------------------------------------------------------------
  // The layout both writers produce

  function KeyLines(order: seq<string>, paths: map<string, string>): (r: seq<string>)
    requires forall k | k in order :: k in paths
    ensures |r| == |order| && forall i :: 0 <= i < |order| ==> r[i] == order[i] + ": " + paths[order[i]]
  {
    seq(|order|, i requires 0 <= i < |order| => order[i] + ": " + paths[order[i]])
  }

  function RowLines(order: seq<string>, rows: seq<string>): (r: seq<string>)
    requires |rows| == |order|
    ensures |r| == |order| && forall i :: 0 <= i < |order| ==> r[i] == order[i] + " = " + rows[i]
  {
    seq(|order|, i requires 0 <= i < |order| => order[i] + " = " + rows[i])
  }

  /** The key section between its markers: the header, then one line per key. */
  function KeyBlock(order: seq<string>, paths: map<string, string>): seq<string>
    requires forall k | k in order :: k in paths
  {
    [KeyHeader] + KeyLines(order, paths)
  }

  /** The grid section between its markers: the "X" header, then one row line per key. */
  function GridBlock(order: seq<string>, rows: seq<string>): seq<string>
    requires |rows| == |order|
  {
    ["X " + Join(" ", order)] + RowLines(order, rows)
  }

  function EditLine(tag: string, v: string): string {
    tag + " " + v
  }

  /**
   * The lines of a tracker file: the key definitions in `order`, the two
   * metadata lines, the "X" header in the same order and one row line per
   * key, `rows[i]` being the row of `order[i]`.
   */
  function Layout(order: seq<string>, paths: map<string, string>, rows: seq<string>, lke: string, lge: string): seq<string>
    requires forall k | k in order :: k in paths
    requires |rows| == |order|
  {
    [KeyStart] + KeyBlock(order, paths) + [KeyEnd]
    + [EditLine(KeyEditLabel, lke)] + [EditLine(GridEditLabel, lge)]
    + [GridStart] + GridBlock(order, rows) + [GridEnd]
  }

  /** write_tracker_file's row for a key: the stored row, or '.' for every key when there is none. */
  function StoredRows(order: seq<string>, grid: map<string, string>): (r: seq<string>)
    ensures |r| == |order|
    ensures forall i :: 0 <= i < |order| ==> r[i] == if order[i] in grid then grid[order[i]] else Repeat(DependencyGrid.EmptyChar, |order|)
  {
    seq(|order|, i requires 0 <= i < |order| => if order[i] in grid then grid[order[i]] else Repeat(DependencyGrid.EmptyChar, |order|))
  }

  /** The file text written for keys in a given order. */
  function RenderTracker(order: seq<string>, keys: Dict<string>, grid: map<string, string>, lke: string, lge: string): string
    requires Valid(keys) && forall k | k in order :: k in keys.values
  {
    Unlines(Layout(order, keys.values, StoredRows(order, grid), lke, lge))
  }

  /**
   * write_tracker_file as written: the keys are ordered with sort_keys,
   * which raises for every key holding a letter or digit, so such a call
   * writes nothing and returns False (Err here).
   */
  function WriteTrackerFileAsWritten(keys: Dict<string>, grid: map<string, string>, lke: string, lge: string): (r: Result<string>)
    requires Valid(keys)
    ensures r.Err? <==> exists k | k in keys.order :: KeyManager.HasKeyPatternChar(k)
    ensures r.Ok? ==> r.value == RenderTracker(keys.order, keys, grid, lke, lge)
  {
    match KeyManager.SortKeys(keys.order)
    case Err(e) => Err(e)
    case Ok(sorted) => Ok(RenderTracker(sorted, keys, grid, lke, lge))
  }

  /**
   * write_tracker_file with the keys in natural order, the ordering the
   * rest of tracker_io uses: a TypeError (False) only when the keys mix
   * digit-first and other keys.
   */
  function WriteTrackerFile(keys: Dict<string>, grid: map<string, string>, lke: string, lge: string): (r: Result<string>)
    requires Valid(keys)
    ensures r.Err? <==> !NaturalOrder.Comparable(keys.order)
    ensures r.Ok? ==> exists order :: SortedKeys(order, keys) && r.value == RenderTracker(order, keys, grid, lke, lge)
  {
    match NaturalOrder.NaturalSort(keys.order)
    case Err(e) => Err(e)
    case Ok(sorted) =>
      SortedMembers(sorted, keys);
      Ok(RenderTracker(sorted, keys, grid, lke, lge))
  }

  /** `order` lists the keys of `keys` once each, in natural order. */
  predicate SortedKeys(order: seq<string>, keys: Dict<string>) {
    NaturalOrder.NaturallySorted(order) && Distinct(order)
    && (forall k | k in order :: k in keys.values) && (forall k | k in keys.values :: k in order)
  }

  /** `order` lists the keys of `keys` once each: in natural order when sorting, else in their own order. */
  predicate SortedKeysOrIn(order: seq<string>, keys: Dict<string>, sorted: bool) {
    if sorted then SortedKeys(order, keys) else order == keys.order
  }

  lemma SortedMembers(sorted: seq<string>, keys: Dict<string>)
    requires Valid(keys) && NaturalOrder.NaturallySorted(sorted) && multiset(sorted) == multiset(keys.order)
    ensures SortedKeys(sorted, keys)
  {
    forall k | k in sorted ensures k in keys.values {
      assert k in multiset(sorted);
    }
    forall k | k in keys.values ensures k in sorted {
      assert k in multiset(keys.order);
    }
    PermutationDistinct(sorted, keys.order);
  }

  /** A permutation of a list without repetitions has none either. */
  lemma PermutationDistinct(a: seq<string>, b: seq<string>)
    requires multiset(a) == multiset(b) && Distinct(b)
    ensures Distinct(a)
  {
    forall i, j | 0 <= i < j < |a| ensures a[i] != a[j] {
      if a[i] == a[j] {
        TwoCopies(a, i, j);
        DistinctCount(b, a[i]);
      }
    }
  }

  lemma TwoCopies(a: seq<string>, i: nat, j: nat)
    requires i < j < |a| && a[i] == a[j]
    ensures multiset(a)[a[i]] >= 2
  {
    var k := a[i];
    assert a == a[..i] + [k] + a[i + 1..j] + [k] + a[j + 1..];
    assert multiset(a) == multiset(a[..i]) + multiset{k} + multiset(a[i + 1..j]) + multiset{k} + multiset(a[j + 1..]);
  }

  lemma {:induction false} DistinctCount(s: seq<string>, k: string)
    requires Distinct(s)
    ensures multiset(s)[k] <= 1
    decreases |s|
  {
    if s != [] {
      assert s == [s[0]] + s[1..];
      assert Distinct(s[1..]) by {
        forall i, j | 0 <= i < j < |s[1..]| ensures s[1..][i] != s[1..][j] {
          assert s[1..][i] == s[i + 1] && s[1..][j] == s[j + 1];
        }
      }
      DistinctCount(s[1..], k);
      if s[0] == k {
        assert k !in s[1..];
      }
    }
  }

  // ---------------------------------------------------------------------
  // Reading back what was written

  /** A path the format holds and reads back unchanged. */
  predicate StorablePath(p: string, cwd: string) {
    p != [] && NormalizePath(p, cwd) == p && !HasLineBreak(p) && NoChar(p, ':')
    && !IsSpace(p[|p| - 1]) && p[|p| - 1] != '-'
  }

  /** A grid row the format holds and reads back unchanged. */
  predicate StorableRow(r: string) {
    r != [] && !HasLineBreak(r) && !IsSpace(r[|r| - 1])
  }

  /** An edit marker that the metadata search reads back unchanged. */
  predicate StorableEdit(v: string) {
    v != [] && !HasLineBreak(v) && !IsSpace(v[0]) && v[|v| - 1] != '-'
  }

  /** Every key is well formed, every stored item is readable and each key has a row. */
  predicate Storable(order: seq<string>, paths: map<string, string>, rows: seq<string>, lke: string, lge: string, cwd: string) {
    |rows| == |order| && Distinct(order)
    && (forall i :: 0 <= i < |order| ==> KeyManager.KeyShape(order[i]) && order[i] in paths
                                         && StorablePath(paths[order[i]], cwd) && StorableRow(rows[i]))
    && StorableEdit(lke) && StorableEdit(lge) && !Contains(lke, GridEditLabel)
  }

  lemma KeyShapeChars(k: string)
    requires KeyManager.KeyShape(k)
    ensures k != [] && IsDigit(k[0]) && (forall i :: 0 <= i < |k| ==> IsAlnum(k[i]))
    ensures !HasLineBreak(k) && NoChar(k, ':') && NoChar(k, ' ') && NoChar(k, '_') && NoChar(k, '\n')
  {
    var n := KeyManager.LeadingDigits(k);
    assert forall i :: 0 <= i < |k| ==> IsAlnum(k[i]) by {
      forall i | 0 <= i < |k| ensures IsAlnum(k[i]) {
        if i < n { assert IsDigit(k[i]); } else if i > n { assert IsLower(k[i]) || IsDigit(k[i]); }
      }
    }
  }

  /** The first occurrence of a separator that starts right after a part lacking its first character. */
  lemma FindAfter(a: string, sep: string, b: string)
    requires sep != [] && NoChar(a, sep[0])
    ensures Find(a + sep + b, sep, 0) == Some(|a|)
  {
    var s := a + sep + b;
    assert s[|a|..|a| + |sep|] == sep;
    forall j | 0 <= j < |a| ensures !At(s, sep, j) {
      assert s[j] == a[j];
    }
    FindAt(s, sep, 0, |a|);
  }

  lemma SplitAfter(a: string, sep: string, b: string)
    requires sep != [] && NoChar(a, sep[0])
    ensures Contains(a + sep + b, sep)
    ensures SplitOnce(a + sep + b, sep) == [a, b]
  {
    var s := a + sep + b;
    FindAfter(a, sep, b);
    FindContains(s, sep);
    assert s[..|a|] == a;
    assert s[|a| + |sep|..] == b;
  }

  lemma KeyLineParse(acc: Dict<string>, k: string, p: string, cwd: string)
    requires Valid(acc) && KeyManager.KeyShape(k) && StorablePath(p, cwd)
    ensures KeyLineStep(acc, k + ": " + p, cwd) == Ok(Put(acc, k, p))
  {
    KeyLineShape(k, p);
    KeyShapeChars(k);
    SplitAfter(k, ": ", p);
  }

  /** A key line is not the header and has no surrounding whitespace. */
  lemma KeyLineShape(k: string, p: string)
    requires KeyManager.KeyShape(k) && p != [] && !IsSpace(p[|p| - 1])
    ensures !StartsWith(k + ": " + p, KeyHeader) && Strip(k + ": " + p) == k + ": " + p
  {
    var line := k + ": " + p;
    KeyShapeChars(k);
    assert line[0] == k[0];
    StartsDiffer(line, KeyHeader);
    assert line[|line| - 1] == p[|p| - 1];
    StripNoSpaceEnds(line);
  }

  lemma GridLineParse(acc: Dict<string>, k: string, r: string)
    requires Valid(acc) && KeyManager.KeyShape(k) && StorableRow(r)
    ensures GridLineStep(acc, k + " = " + r) == Ok(Put(acc, k, r))
  {
    var line := k + " = " + r;
    KeyShapeChars(k);
    assert line[0] == k[0];
    assert line[|line| - 1] == r[|r| - 1];
    StripNoSpaceEnds(line);
    SplitAfter(k, " = ", r);
  }

  /** The entries of `m` for the keys listed in `order`. */
  function Restrict(m: map<string, string>, order: seq<string>): (r: map<string, string>)
    requires forall k | k in order :: k in m
    ensures forall k :: k in r <==> k in order
    ensures forall k | k in r :: r[k] == m[k]
  {
    map k | k in order :: m[k]
  }

  lemma DistinctTail(s: seq<string>)
    requires s != [] && Distinct(s)
    ensures Distinct(s[1..]) && s[0] !in s[1..]
  {
    forall i, j | 0 <= i < j < |s[1..]| ensures s[1..][i] != s[1..][j] {
      assert s[1..][i] == s[i + 1] && s[1..][j] == s[j + 1];
    }
  }

  /** Keys that can start a key-line sequence parse from `acc`. */
  predicate FreshStorableKeys(acc: Dict<string>, order: seq<string>, paths: map<string, string>, cwd: string) {
    Distinct(order)
    && forall i :: 0 <= i < |order| ==> order[i] !in acc.values && KeyManager.KeyShape(order[i])
                                        && order[i] in paths && StorablePath(paths[order[i]], cwd)
  }

  lemma KeyLinesStep(acc: Dict<string>, order: seq<string>, paths: map<string, string>, cwd: string)
    requires Valid(acc) && order != [] && forall k | k in order :: k in paths
    requires KeyManager.KeyShape(order[0]) && StorablePath(paths[order[0]], cwd)
    ensures ParseKeyLines(acc, KeyLines(order, paths), cwd)
            == ParseKeyLines(Put(acc, order[0], paths[order[0]]), KeyLines(order[1..], paths), cwd)
  {
    KeyLineParse(acc, order[0], paths[order[0]], cwd);
    KeyLinesCons(order, paths);
    ParseKeyLinesCons(acc, KeyLines(order, paths), cwd, Put(acc, order[0], paths[order[0]]));
  }

  lemma KeyLinesCons(order: seq<string>, paths: map<string, string>)
    requires order != [] && forall k | k in order :: k in paths
    ensures KeyLines(order, paths)[0] == order[0] + ": " + paths[order[0]]
    ensures KeyLines(order, paths)[1..] == KeyLines(order[1..], paths)
  {
  }

  lemma ParseKeyLinesCons(acc: Dict<string>, ls: seq<string>, cwd: string, next: Dict<string>)
    requires Valid(acc) && ls != [] && KeyLineStep(acc, ls[0], cwd) == Ok(next)
    ensures ParseKeyLines(acc, ls, cwd) == ParseKeyLines(next, ls[1..], cwd)
  {
  }

  lemma FreshTail(acc: Dict<string>, order: seq<string>, paths: map<string, string>, cwd: string)
    requires Valid(acc) && order != [] && FreshStorableKeys(acc, order, paths, cwd)
    ensures FreshStorableKeys(Put(acc, order[0], paths[order[0]]), order[1..], paths, cwd)
  {
    DistinctTail(order);
    assert forall i :: 0 <= i < |order[1..]| ==> order[1..][i] == order[i + 1];
  }

  lemma {:induction false} ParseKeyLinesOk(acc: Dict<string>, order: seq<string>, paths: map<string, string>, cwd: string)
    requires Valid(acc) && FreshStorableKeys(acc, order, paths, cwd)
    ensures ParseKeyLines(acc, KeyLines(order, paths), cwd) == Ok(Dict(acc.order + order, acc.values + Restrict(paths, order)))
    decreases |order|
  {
    if order == [] {
      assert acc.order + order == acc.order;
      assert acc.values + Restrict(paths, order) == acc.values;
    } else {
      var k := order[0];
      assert order[0] in order;
      KeyLinesStep(acc, order, paths, cwd);
      FreshTail(acc, order, paths, cwd);
      ParseKeyLinesOk(Put(acc, k, paths[k]), order[1..], paths, cwd);
      ConsOrder(acc.order, order);
      DistinctTail(order);
      MapUpdatePlus(acc.values, k, paths[k], Restrict(paths, order[1..]));
      RestrictCons(paths, order);
    }
  }

  lemma {:induction false} ParseGridLinesOk(acc: Dict<string>, order: seq<string>, rows: seq<string>)
    requires Valid(acc) && Distinct(order) && |rows| == |order|
    requires forall i :: 0 <= i < |order| ==> order[i] !in acc.values && KeyManager.KeyShape(order[i]) && StorableRow(rows[i])
    ensures ParseGridLines(acc, RowLines(order, rows)) == Ok(Dict(acc.order + order, acc.values + RowMap(order, rows)))
    decreases |order|
  {
    if order == [] {
      assert acc.order + order == acc.order;
      assert acc.values + RowMap(order, rows) == acc.values;
    } else {
      var k := order[0];
      var next := Put(acc, k, rows[0]);
      GridLinesStep(acc, order, rows);
      GridTail(acc, order, rows);
      ParseGridLinesOk(next, order[1..], rows[1..]);
      ConsOrder(acc.order, order);
      RowMapCons(order, rows);
      MapUpdatePlus(acc.values, k, rows[0], RowMap(order[1..], rows[1..]));
    }
  }

  /** Parsing the row lines consumes the first key's line first. */
  lemma GridLinesStep(acc: Dict<string>, order: seq<string>, rows: seq<string>)
    requires Valid(acc) && order != [] && |rows| == |order|
    requires KeyManager.KeyShape(order[0]) && StorableRow(rows[0])
    ensures ParseGridLines(acc, RowLines(order, rows))
            == ParseGridLines(Put(acc, order[0], rows[0]), RowLines(order[1..], rows[1..]))
  {
    var lines := RowLines(order, rows);
    RowLinesTail(order, rows);
    GridLineParse(acc, order[0], rows[0]);
    ParseGridLinesCons(acc, lines);
  }

  lemma RowLinesTail(order: seq<string>, rows: seq<string>)
    requires order != [] && |rows| == |order|
    ensures RowLines(order, rows)[0] == order[0] + " = " + rows[0]
    ensures RowLines(order, rows)[1..] == RowLines(order[1..], rows[1..])
  {
    var lines, tail := RowLines(order, rows), RowLines(order[1..], rows[1..]);
    forall i | 0 <= i < |tail| ensures lines[1..][i] == tail[i] {
      assert order[1..][i] == order[i + 1] && rows[1..][i] == rows[i + 1];
    }
  }

  lemma ParseGridLinesCons(acc: Dict<string>, ls: seq<string>)
    requires Valid(acc) && ls != [] && GridLineStep(acc, ls[0]).Ok?
    ensures ParseGridLines(acc, ls) == ParseGridLines(GridLineStep(acc, ls[0]).value, ls[1..])
  {
  }

  lemma GridTail(acc: Dict<string>, order: seq<string>, rows: seq<string>)
    requires Valid(acc) && Distinct(order) && |rows| == |order| && order != []
    requires forall i :: 0 <= i < |order| ==> order[i] !in acc.values && KeyManager.KeyShape(order[i]) && StorableRow(rows[i])
    ensures Distinct(order[1..])
    ensures forall i :: 0 <= i < |order[1..]| ==>
              order[1..][i] !in Put(acc, order[0], rows[0]).values && KeyManager.KeyShape(order[1..][i]) && StorableRow(rows[1..][i])
  {
    DistinctTail(order);
    assert forall i :: 0 <= i < |order[1..]| ==> order[1..][i] == order[i + 1] && rows[1..][i] == rows[i + 1];
  }

  lemma RowMapCons(order: seq<string>, rows: seq<string>)
    requires |rows| == |order| && Distinct(order) && order != []
    ensures Distinct(order[1..])
    ensures RowMap(order, rows) == RowMap(order[1..], rows[1..])[order[0] := rows[0]]
    ensures order[0] !in RowMap(order[1..], rows[1..])
  {
    DistinctTail(order);
    assert forall i :: 0 <= i < |order[1..]| ==> order[1..][i] == order[i + 1];
  }

  lemma ConsOrder(a: seq<string>, order: seq<string>)
    requires order != []
    ensures (a + [order[0]]) + order[1..] == a + order
  {
    assert order == [order[0]] + order[1..];
  }

  lemma MapUpdatePlus(m: map<string, string>, k: string, v: string, m1: map<string, string>)
    requires k !in m1
    ensures m[k := v] + m1 == m + m1[k := v]
  {
  }

  lemma RestrictCons(paths: map<string, string>, order: seq<string>)
    requires order != [] && forall k | k in order :: k in paths
    ensures Restrict(paths, order) == Restrict(paths, order[1..])[order[0] := paths[order[0]]]
  {
    assert forall k :: k in order <==> k == order[0] || k in order[1..] by {
      assert order == [order[0]] + order[1..];
    }
  }

  /** The row of each key of `order`, `rows[i]` being the row of `order[i]`. */
  function RowMap(order: seq<string>, rows: seq<string>): (r: map<string, string>)
    requires |rows| == |order| && Distinct(order)
    ensures forall k :: k in r <==> k in order
    ensures forall i :: 0 <= i < |order| ==> r[order[i]] == rows[i]
    decreases |order|
  {
    if order == [] then map[]
    else
      DistinctTail(order);
      assert forall i :: 1 <= i < |order| ==> order[i] == order[1..][i - 1] && rows[i] == rows[1..][i - 1];
      RowMap(order[1..], rows[1..])[order[0] := rows[0]]
  }

  // Facts about the individual lines of the layout

  lemma MarkerFacts()
    ensures !HasLineBreak(KeyStart) && !HasLineBreak(KeyHeader) && !HasLineBreak(KeyEnd)
    ensures !HasLineBreak(GridStart) && !HasLineBreak(GridEnd)
    ensures !HasLineBreak(KeyEditLabel + " ") && !HasLineBreak(GridEditLabel + " ") && !HasLineBreak("X ")
    ensures !HasLineBreak(": ") && !HasLineBreak(" = ") && !HasLineBreak(" ")
    ensures NoChar(KeyEnd, '\n') && NoChar(GridStart, '\n') && NoChar(GridEnd, '\n')
    ensures NoChar(KeyEditLabel, '\n') && NoChar(GridEditLabel, '\n')
    ensures NoChar(KeyEditLabel, ' ') && NoChar(GridEditLabel, ' ')
    ensures !Contains(KeyStart, KeyEditLabel) && !Contains(KeyHeader, KeyEditLabel) && !Contains(KeyEnd, KeyEditLabel)
    ensures !Contains(KeyStart, GridEditLabel) && !Contains(KeyHeader, GridEditLabel) && !Contains(KeyEnd, GridEditLabel)
    ensures !Contains(KeyEditLabel, GridEditLabel)
    ensures !EndsWith(KeyStart, GridStart) && !EndsWith(KeyHeader, GridStart) && !EndsWith(KeyEnd, GridStart)
  {
    MarkersNoBreak();
    MarkersNoFeed();
    MarkersNoLabel();
    MarkersNoGridStart();
  }

  lemma MarkersNoBreak()
    ensures !HasLineBreak(KeyStart) && !HasLineBreak(KeyHeader) && !HasLineBreak(KeyEnd)
    ensures !HasLineBreak(GridStart) && !HasLineBreak(GridEnd)
    ensures !HasLineBreak(KeyEditLabel + " ") && !HasLineBreak(GridEditLabel + " ") && !HasLineBreak("X ")
    ensures !HasLineBreak(": ") && !HasLineBreak(" = ") && !HasLineBreak(" ")
  {
    KeyMarkersNoBreak();
    GridMarkersNoBreak();
    SeparatorsNoBreak();
  }

  lemma KeyMarkersNoBreak()
    ensures !HasLineBreak(KeyStart) && !HasLineBreak(KeyHeader) && !HasLineBreak(KeyEnd)
  {
    KeyStartNoBreak();
    assert !HasLineBreak(KeyHeader) by { PrintableNoBreak(KeyHeader); }
    assert !HasLineBreak(KeyEnd) by { PrintableNoBreak(KeyEnd); }
  }

  lemma KeyStartNoBreak()
    ensures !HasLineBreak(KeyStart)
  {
    PrintableNoBreak(KeyStart);
  }

  lemma GridMarkersNoBreak()
    ensures !HasLineBreak(GridStart) && !HasLineBreak(GridEnd)
    ensures !HasLineBreak(KeyEditLabel + " ") && !HasLineBreak(GridEditLabel + " ")
  {
    assert !HasLineBreak(GridStart) by { PrintableNoBreak(GridStart); }
    assert !HasLineBreak(GridEnd) by { PrintableNoBreak(GridEnd); }
    assert !HasLineBreak(KeyEditLabel + " ") by { PrintableNoBreak(KeyEditLabel + " "); }
    assert !HasLineBreak(GridEditLabel + " ") by { PrintableNoBreak(GridEditLabel + " "); }
  }

  lemma SeparatorsNoBreak()
    ensures !HasLineBreak("X ") && !HasLineBreak(": ") && !HasLineBreak(" = ") && !HasLineBreak(" ")
  {
    assert !HasLineBreak("X ") by { PrintableNoBreak("X "); }
    assert !HasLineBreak(": ") by { PrintableNoBreak(": "); }
    assert !HasLineBreak(" = ") by { PrintableNoBreak(" = "); }
    assert !HasLineBreak(" ") by { PrintableNoBreak(" "); }
  }

  lemma MarkersNoFeed()
    ensures NoChar(KeyEnd, '\n') && NoChar(GridStart, '\n') && NoChar(GridEnd, '\n')
    ensures NoChar(KeyEditLabel, '\n') && NoChar(GridEditLabel, '\n')
    ensures NoChar(KeyEditLabel, ' ') && NoChar(GridEditLabel, ' ')
  {
  }

  lemma MarkersNoLabel()
    ensures !Contains(KeyStart, KeyEditLabel) && !Contains(KeyHeader, KeyEditLabel) && !Contains(KeyEnd, KeyEditLabel)
    ensures !Contains(KeyStart, GridEditLabel) && !Contains(KeyHeader, GridEditLabel) && !Contains(KeyEnd, GridEditLabel)
    ensures !Contains(KeyEditLabel, GridEditLabel)
  {
    assert KeyEditLabel[0] == 'l' && GridEditLabel[0] == 'l';
    assert KeyEditLabel[4] == '_' && GridEditLabel[4] == '_';
    NoCharNoContains(KeyStart, KeyEditLabel, 0);
    NoCharNoContains(KeyEnd, KeyEditLabel, 0);
    NoCharNoContains(KeyHeader, KeyEditLabel, 4);
    NoCharNoContains(KeyStart, GridEditLabel, 0);
    NoCharNoContains(KeyEnd, GridEditLabel, 0);
    NoCharNoContains(KeyHeader, GridEditLabel, 4);
  }

  lemma MarkersNoGridStart()
    ensures !EndsWith(KeyStart, GridStart) && !EndsWith(KeyHeader, GridStart) && !EndsWith(KeyEnd, GridStart)
  {
    EndsWithLast(KeyHeader, GridStart);
    assert KeyStart[|KeyStart| - 16..] != GridStart by { assert KeyStart[|KeyStart| - 16] == 'N'; }
    assert KeyEnd[|KeyEnd| - 16..] != GridStart by { assert KeyEnd[|KeyEnd| - 16] == 'F'; }
  }

  /** A line that the searches for the grid's start marker and for the grid edit label pass over. */
  predicate PlainLine(l: string) {
    !HasLineBreak(l) && !EndsWith(l, GridStart) && !Contains(l, GridEditLabel)
  }

  /** A line of the key part, which the search for the key edit label passes over as well. */
  predicate KeyPartLine(l: string) {
    PlainLine(l) && !Contains(l, KeyEditLabel)
  }

  lemma MarkersKeyPart()
    ensures KeyPartLine(KeyStart) && KeyPartLine(KeyHeader) && KeyPartLine(KeyEnd)
  {
    MarkersNoBreak();
    MarkersNoLabel();
    MarkersNoGridStart();
  }

  lemma KeyLineFacts(k: string, p: string, cwd: string)
    requires KeyManager.KeyShape(k) && StorablePath(p, cwd)
    ensures var l := k + ": " + p;
      KeyPartLine(l) && l != [] && IsDigit(l[0]) && !StartsWith(l, KeyEnd)
  {
    var l := k + ": " + p;
    KeyShapeChars(k);
    assert !HasLineBreak(": ") && !HasLineBreak(p) && NoChar(p, ':');
    NoBreakConcat(k, ": ");
    NoBreakConcat(k + ": ", p);
    LabelShapes();
    KeyLineNoLabel(k, p, KeyEditLabel, 13);
    KeyLineNoLabel(k, p, GridEditLabel, 14);
    KeyLineEnds(k, p);
  }

  lemma KeyLineEnds(k: string, p: string)
    requires KeyManager.KeyShape(k) && p != [] && p[|p| - 1] != '-'
    ensures var l := k + ": " + p;
      l != [] && IsDigit(l[0]) && !StartsWith(l, KeyEnd) && !EndsWith(l, GridStart)
  {
    var l := k + ": " + p;
    KeyShapeChars(k);
    assert l[0] == k[0] && l[|l| - 1] == p[|p| - 1];
    StartsDiffer(l, KeyEnd);
    EndsWithLast(l, GridStart);
  }

  lemma LabelShapes()
    ensures |KeyEditLabel| > 13 && KeyEditLabel[4] == '_' && KeyEditLabel[13] == ':' && NoChar(KeyEditLabel, ' ')
    ensures |GridEditLabel| > 14 && GridEditLabel[4] == '_' && GridEditLabel[14] == ':' && NoChar(GridEditLabel, ' ')
  {
  }

  /** A key line cannot hold an edit label: the key has no '_' and the path no ':'. */
  lemma KeyLineNoLabel(k: string, p: string, tag: string, colon: nat)
    requires KeyManager.KeyShape(k) && NoChar(p, ':')
    requires |tag| > colon > 4 && tag[4] == '_' && tag[colon] == ':' && NoChar(tag, ' ')
    ensures !Contains(k + ": " + p, tag)
  {
    KeyShapeChars(k);
    var a := k + ":";
    assert k + ": " + p == a + [' '] + p;
    assert NoChar(a, '_') by {
      forall i | 0 <= i < |a| ensures a[i] != '_' { if i < |k| { assert a[i] == k[i]; } }
    }
    NoCharNoContains(a, tag, 4);
    NoCharNoContains(p, tag, colon);
    ContainsSplit(a, ' ', p, tag);
  }

  lemma RowLineFacts(k: string, r: string)
    requires KeyManager.KeyShape(k) && StorableRow(r)
    ensures var l := k + " = " + r;
      && !HasLineBreak(l) && l != [] && IsDigit(l[0])
  {
    KeyShapeChars(k);
    MarkerFacts();
    NoBreakConcat(k, " = ");
    NoBreakConcat(k + " = ", r);
  }

  /** The key edit line holds no grid edit label. */
  lemma KeyEditLineFacts(lke: string)
    requires StorableEdit(lke) && !Contains(lke, GridEditLabel)
    ensures PlainLine(EditLine(KeyEditLabel, lke))
  {
    MarkersNoBreak();
    MarkersNoLabel();
    MarkersNoFeed();
    EditLineFacts(KeyEditLabel, lke);
    assert EditLine(KeyEditLabel, lke) == KeyEditLabel + [' '] + lke;
    ContainsSplit(KeyEditLabel, ' ', lke, GridEditLabel);
  }

  lemma EditLineFacts(tag: string, v: string)
    requires StorableEdit(v) && !HasLineBreak(tag + " ")
    ensures !HasLineBreak(EditLine(tag, v)) && !EndsWith(EditLine(tag, v), GridStart)
  {
    NoBreakConcat(tag + " ", v);
    var l := tag + " " + v;
    assert l[|l| - 1] == v[|v| - 1];
    EndsWithLast(l, GridStart);
  }

  /** Every row line is a single line led by a digit. */
  lemma RowLinesFacts(order: seq<string>, rows: seq<string>)
    requires |rows| == |order|
    requires forall i :: 0 <= i < |order| ==> KeyManager.KeyShape(order[i]) && StorableRow(rows[i])
    ensures var rl := RowLines(order, rows);
      forall i :: 0 <= i < |rl| ==> !HasLineBreak(rl[i]) && rl[i] != [] && IsDigit(rl[i][0])
  {
    var rl := RowLines(order, rows);
    forall i | 0 <= i < |rl| ensures !HasLineBreak(rl[i]) && rl[i] != [] && IsDigit(rl[i][0]) {
      RowLineFacts(order[i], rows[i]);
    }
  }

  /** The "X" header line of the grid. */
  lemma HeaderLineFacts(order: seq<string>)
    requires forall i :: 0 <= i < |order| ==> KeyManager.KeyShape(order[i])
    ensures !HasLineBreak("X " + Join(" ", order))
  {
    MarkerFacts();
    forall i | 0 <= i < |order| ensures !HasLineBreak(order[i]) { KeyShapeChars(order[i]); }
    JoinNoBreaks(" ", order);
    NoBreakConcat("X ", Join(" ", order));
  }

  lemma SectionFound(s: string, start: string, end: string, i: nat, from: nat, to: nat)
    requires Find(s, start + "\n", 0) == Some(i) && from == i + |start| + 1
    requires Find(s, "\n" + end, from) == Some(to) && from <= to <= |s|
    ensures Section(s, start, end) == Some(s[from..to])
  {
  }

  /** The groupings of the layout's eight parts that the searches for its markers need. */
  lemma Regroup<T>(a: seq<T>, b: seq<T>, c: seq<T>, d: seq<T>, e: seq<T>, f: seq<T>, g: seq<T>, h: seq<T>)
    ensures a + b + c + d + e + f + g + h == [] + a + b + c + (d + e + f + g + h)
    ensures a + b + c + d + e + f + g + h == (a + b + c + d + e) + f + g + h + []
    ensures a + b + c + d + e + f + g + h == (a + b + c) + d + (e + f + g + h)
    ensures a + b + c + d + e + f + g + h == (a + b + c + d) + e + (f + g + h)
  {
  }

  /** The key block: lines of the key part, none after the header starting with the end marker. */
  lemma KeyBlockFacts(order: seq<string>, paths: map<string, string>, cwd: string)
    requires forall i :: 0 <= i < |order| ==> KeyManager.KeyShape(order[i]) && order[i] in paths && StorablePath(paths[order[i]], cwd)
    ensures forall i :: 0 <= i < |KeyBlock(order, paths)| ==> KeyPartLine(KeyBlock(order, paths)[i])
    ensures forall i :: 1 <= i < |KeyBlock(order, paths)| ==> !StartsWith(KeyBlock(order, paths)[i], KeyEnd)
  {
    var kb := KeyBlock(order, paths);
    MarkersKeyPart();
    forall i | 0 <= i < |kb| ensures KeyPartLine(kb[i]) && (i > 0 ==> !StartsWith(kb[i], KeyEnd)) {
      if i > 0 {
        KeyBlockLine(order, paths, i);
        KeyLineFacts(order[i - 1], paths[order[i - 1]], cwd);
      }
    }
  }

  lemma KeyBlockLine(order: seq<string>, paths: map<string, string>, i: nat)
    requires forall k | k in order :: k in paths
    requires 0 < i <= |order|
    ensures |KeyBlock(order, paths)| == |order| + 1
    ensures KeyBlock(order, paths)[i] == order[i - 1] + ": " + paths[order[i - 1]]
  {
  }

  /** The key part: the start marker, the key block and the end marker. */
  function KeyPart(order: seq<string>, paths: map<string, string>): seq<string>
    requires forall k | k in order :: k in paths
  {
    [KeyStart] + KeyBlock(order, paths) + [KeyEnd]
  }

  lemma KeyPartFacts(order: seq<string>, paths: map<string, string>, cwd: string)
    requires forall i :: 0 <= i < |order| ==> KeyManager.KeyShape(order[i]) && order[i] in paths && StorablePath(paths[order[i]], cwd)
    ensures forall i :: 0 <= i < |KeyPart(order, paths)| ==> KeyPartLine(KeyPart(order, paths)[i])
  {
    var kb := KeyBlock(order, paths);
    var kp := KeyPart(order, paths);
    MarkersKeyPart();
    KeyBlockFacts(order, paths, cwd);
    forall i | 0 <= i < |kp| ensures KeyPartLine(kp[i]) {
      if 0 < i <= |kb| { assert kp[i] == kb[i - 1]; }
    }
  }

  lemma LinesNoFeeds(ls: seq<string>)
    requires forall i :: 0 <= i < |ls| ==> PlainLine(ls[i])
    ensures NoFeeds(ls) && NoBreaks(ls)
  {
    NoBreaksNoFeeds(ls);
  }

  /** The key section of a rendered tracker is the header followed by the key lines. */
  lemma KeySectionRead(order: seq<string>, paths: map<string, string>, rows: seq<string>, lke: string, lge: string, cwd: string)
    requires Storable(order, paths, rows, lke, lge, cwd)
    ensures Section(Unlines(Layout(order, paths, rows, lke, lge)), KeyStart, KeyEnd) == Some(Join("\n", KeyBlock(order, paths)))
  {
    var c := Unlines(Layout(order, paths, rows, lke, lge));
    var mid := KeyBlock(order, paths);
    var post := [EditLine(KeyEditLabel, lke)] + [EditLine(GridEditLabel, lge)] + [GridStart] + GridBlock(order, rows) + [GridEnd];
    Regroup([KeyStart], mid, [KeyEnd], [EditLine(KeyEditLabel, lke)], [EditLine(GridEditLabel, lge)], [GridStart], GridBlock(order, rows), [GridEnd]);
    KeyBlockFacts(order, paths, cwd);
    LinesNoFeeds(mid);
    MarkersNoBreak();
    NoBreakNoFeed(KeyStart);
    NoBreakNoFeed(KeyEnd);
    var from := |KeyStart| + 1;
    var to := |KeyStart| + |Unlines(mid)|;
    FindBlock(c, [], KeyStart, mid, KeyEnd, post, from, to);
    SectionFound(c, KeyStart, KeyEnd, 0, from, to);
  }

  /** The lines of the grid block: single, non-empty lines, none after the first starting with the end marker. */
  lemma GridBlockFacts(order: seq<string>, rows: seq<string>)
    requires |rows| == |order|
    requires forall i :: 0 <= i < |order| ==> KeyManager.KeyShape(order[i]) && StorableRow(rows[i])
    ensures forall l | l in GridBlock(order, rows) :: !HasLineBreak(l) && l != []
    ensures forall i :: 1 <= i < |GridBlock(order, rows)| ==> !StartsWith(GridBlock(order, rows)[i], GridEnd)
  {
    var rl := RowLines(order, rows);
    HeaderLineFacts(order);
    RowLinesFacts(order, rows);
    forall i | 1 <= i < |GridBlock(order, rows)| ensures !StartsWith(GridBlock(order, rows)[i], GridEnd) {
      assert GridBlock(order, rows)[i] == rl[i - 1];
      StartsDiffer(rl[i - 1], GridEnd);
    }
  }

  /** The grid section of a rendered tracker is the "X" header followed by the row lines. */
  lemma GridSectionRead(order: seq<string>, paths: map<string, string>, rows: seq<string>, lke: string, lge: string, cwd: string)
    requires Storable(order, paths, rows, lke, lge, cwd)
    ensures Section(Unlines(Layout(order, paths, rows, lke, lge)), GridStart, GridEnd) == Some(Join("\n", GridBlock(order, rows)))
  {
    var c := Unlines(Layout(order, paths, rows, lke, lge));
    var l1 := EditLine(KeyEditLabel, lke);
    var l2 := EditLine(GridEditLabel, lge);
    var pre := KeyPart(order, paths) + [l1] + [l2];
    var mid := GridBlock(order, rows);
    Regroup([KeyStart], KeyBlock(order, paths), [KeyEnd], [l1], [l2], [GridStart], mid, [GridEnd]);
    PreGridFacts(order, paths, lke, lge, cwd);
    GridBlockFacts(order, rows);
    assert NoBreaks(mid) by { forall i | 0 <= i < |mid| ensures !HasLineBreak(mid[i]) { assert mid[i] in mid; } }
    NoBreaksNoFeeds(mid);
    MarkersNoFeed();
    var from := |Unlines(pre)| + |GridStart| + 1;
    var to := |Unlines(pre)| + |GridStart| + |Unlines(mid)|;
    FindBlock(c, pre, GridStart, mid, GridEnd, [], from, to);
    SectionFound(c, GridStart, GridEnd, |Unlines(pre)|, from, to);
  }

  /** The lines before the grid's start marker: single lines, none ending with the marker. */
  lemma PreGridFacts(order: seq<string>, paths: map<string, string>, lke: string, lge: string, cwd: string)
    requires forall i :: 0 <= i < |order| ==> KeyManager.KeyShape(order[i]) && order[i] in paths && StorablePath(paths[order[i]], cwd)
    requires StorableEdit(lke) && StorableEdit(lge)
    ensures var pre := KeyPart(order, paths) + [EditLine(KeyEditLabel, lke)] + [EditLine(GridEditLabel, lge)];
      NoFeeds(pre) && forall i :: 0 <= i < |pre| ==> !EndsWith(pre[i], GridStart)
  {
    var kp := KeyPart(order, paths);
    var pre := kp + [EditLine(KeyEditLabel, lke)] + [EditLine(GridEditLabel, lge)];
    KeyPartFacts(order, paths, cwd);
    MarkersNoBreak();
    EditLineFacts(KeyEditLabel, lke);
    EditLineFacts(GridEditLabel, lge);
    forall i | 0 <= i < |pre| ensures !HasLineBreak(pre[i]) && !EndsWith(pre[i], GridStart) {
      if i < |kp| { assert pre[i] == kp[i]; }
    }
    NoBreaksNoFeeds(pre);
  }

  /** The line feed that ends the line running from k. */
  lemma {:induction false} LineEndExact(s: string, k: nat, e: nat)
    requires k <= e < |s| && s[e] == '\n' && forall i :: k <= i < e ==> s[i] != '\n'
    ensures LineEnd(s, k) == e
    decreases e - k
  {
    if k < e {
      LineEndExact(s, k + 1, e);
    }
  }

  /** The metadata group of a line `tag v`: the value itself, when it has no leading whitespace. */
  lemma MetaGroupLine(a: string, tag: string, v: string, b: string)
    requires v != [] && NoChar(v, '\n') && !IsSpace(v[0])
    ensures MetaGroup(a + (tag + " " + v) + "\n" + b, |a| + |tag|) == Some(v)
  {
    var s := a + (tag + " " + v) + "\n" + b;
    var k := |a| + |tag|;
    assert s[k] == ' ' && s[k + 1] == v[0];
    assert SpaceRun(s, k + 1) == 0;
    assert SpaceRun(s, k) == 1;
    var e := k + 1;
    forall i | e <= i < e + |v| ensures s[i] != '\n' { assert s[i] == v[i - e]; }
    assert s[e + |v|] == '\n';
    LineEndExact(s, e, e + |v|);
    assert s[e..e + |v|] == v;
  }

  lemma MetaSearchFound(s: string, tag: string, i: nat, v: string)
    requires tag != [] && Find(s, tag, 0) == Some(i) && i + |tag| <= |s| && MetaGroup(s, i + |tag|) == Some(v)
    ensures MetaSearch(s, tag, 0) == Some(v)
  {
  }

  /** The value after the first occurrence of a label, on a line standing after lines free of it. */
  lemma MetaLineRead(c: string, pre: seq<string>, tag: string, v: string, post: seq<string>)
    requires c == Unlines(pre + [EditLine(tag, v)] + post)
    requires NoFeeds(pre) && NoChar(tag, '\n') && tag != []
    requires forall i :: 0 <= i < |pre| ==> !Contains(pre[i], tag)
    requires v != [] && NoChar(v, '\n') && !IsSpace(v[0])
    ensures MetaSearch(c, tag, 0) == Some(v)
  {
    var l := EditLine(tag, v);
    assert StartsWith(l, tag) by { assert l[..|tag|] == tag; }
    FindLineStart(pre, l, post, tag);
    MetaLineAt(c, Unlines(pre), tag, v, Unlines(post));
  }

  lemma MetaLineAt(c: string, a: string, tag: string, v: string, b: string)
    requires tag != [] && c == a + (tag + " " + v) + "\n" + b && Find(c, tag, 0) == Some(|a|)
    requires v != [] && NoChar(v, '\n') && !IsSpace(v[0])
    ensures MetaSearch(c, tag, 0) == Some(v)
  {
    MetaGroupLine(a, tag, v, b);
    MetaSearchFound(c, tag, |a|, v);
  }

  /** A stored edit value is one line and starts with no whitespace. */
  lemma EditValue(v: string)
    requires StorableEdit(v)
    ensures v != [] && NoChar(v, '\n') && !IsSpace(v[0])
  {
    NoBreakNoFeed(v);
  }

  lemma KeyEditRead(order: seq<string>, paths: map<string, string>, rows: seq<string>, lke: string, lge: string, cwd: string)
    requires Storable(order, paths, rows, lke, lge, cwd)
    ensures MetaSearch(Unlines(Layout(order, paths, rows, lke, lge)), KeyEditLabel, 0) == Some(lke)
  {
    var c := Unlines(Layout(order, paths, rows, lke, lge));
    var l1 := EditLine(KeyEditLabel, lke);
    var l2 := EditLine(GridEditLabel, lge);
    var kp := KeyPart(order, paths);
    Regroup([KeyStart], KeyBlock(order, paths), [KeyEnd], [l1], [l2], [GridStart], GridBlock(order, rows), [GridEnd]);
    KeyPartFacts(order, paths, cwd);
    LinesNoFeeds(kp);
    MarkersNoFeed();
    EditValue(lke);
    MetaLineRead(c, kp, KeyEditLabel, lke, [l2] + [GridStart] + GridBlock(order, rows) + [GridEnd]);
  }

  lemma GridEditRead(order: seq<string>, paths: map<string, string>, rows: seq<string>, lke: string, lge: string, cwd: string)
    requires Storable(order, paths, rows, lke, lge, cwd)
    ensures MetaSearch(Unlines(Layout(order, paths, rows, lke, lge)), GridEditLabel, 0) == Some(lge)
  {
    var c := Unlines(Layout(order, paths, rows, lke, lge));
    var l1 := EditLine(KeyEditLabel, lke);
    var l2 := EditLine(GridEditLabel, lge);
    var kp := KeyPart(order, paths);
    var pre := kp + [l1];
    Regroup([KeyStart], KeyBlock(order, paths), [KeyEnd], [l1], [l2], [GridStart], GridBlock(order, rows), [GridEnd]);
    KeyPartFacts(order, paths, cwd);
    KeyEditLineFacts(lke);
    assert forall i :: 0 <= i < |pre| ==> PlainLine(pre[i]) by {
      forall i | 0 <= i < |pre| ensures PlainLine(pre[i]) { if i < |kp| { assert pre[i] == kp[i]; } }
    }
    LinesNoFeeds(pre);
    MarkersNoFeed();
    EditValue(lge);
    MetaLineRead(c, pre, GridEditLabel, lge, [GridStart] + GridBlock(order, rows) + [GridEnd]);
  }

  /** The key block, split back into lines and parsed, gives each key its path in `order`. */
  lemma KeyBlockParsed(order: seq<string>, paths: map<string, string>, rows: seq<string>, lke: string, lge: string, cwd: string)
    requires Storable(order, paths, rows, lke, lge, cwd)
    ensures ParseKeyLines(Empty(), SplitLines(Join("\n", KeyBlock(order, paths))), cwd) == Ok(Dict(order, Restrict(paths, order)))
  {
    KeyBlockSplit(order, paths, cwd);
    KeyBlockParse(order, paths, cwd);
  }

  lemma KeyBlockSplit(order: seq<string>, paths: map<string, string>, cwd: string)
    requires forall i :: 0 <= i < |order| ==> KeyManager.KeyShape(order[i]) && order[i] in paths && StorablePath(paths[order[i]], cwd)
    ensures SplitLines(Join("\n", KeyBlock(order, paths))) == KeyBlock(order, paths)
  {
    var kb := KeyBlock(order, paths);
    KeyBlockFacts(order, paths, cwd);
    LinesNoFeeds(kb);
    assert kb[|kb| - 1] != [] by {
      if |kb| == 1 { assert kb[0] == KeyHeader; } else { KeyBlockLine(order, paths, |kb| - 1); }
    }
    SplitLinesJoin(kb);
  }

  lemma KeyBlockParse(order: seq<string>, paths: map<string, string>, cwd: string)
    requires Distinct(order)
    requires forall i :: 0 <= i < |order| ==> KeyManager.KeyShape(order[i]) && order[i] in paths && StorablePath(paths[order[i]], cwd)
    ensures ParseKeyLines(Empty(), KeyBlock(order, paths), cwd) == Ok(Dict(order, Restrict(paths, order)))
  {
    var kb := KeyBlock(order, paths);
    assert StartsWith(KeyHeader, KeyHeader);
    ParseKeyLinesCons(Empty(), kb, cwd, Empty());
    assert kb[1..] == KeyLines(order, paths);
    ParseKeyLinesOk(Empty(), order, paths, cwd);
    EmptyPlus(order, Restrict(paths, order));
  }

  /** The grid block, split back into lines and parsed, gives each key its row in `order`. */
  lemma GridBlockParsed(order: seq<string>, paths: map<string, string>, rows: seq<string>, lke: string, lge: string, cwd: string)
    requires Storable(order, paths, rows, lke, lge, cwd)
    ensures ParseGridSection(SplitLines(Join("\n", GridBlock(order, rows)))) == Ok(Dict(order, RowMap(order, rows)))
  {
    GridBlockSplit(order, rows);
    GridBlockParse(order, rows);
  }

  lemma GridBlockSplit(order: seq<string>, rows: seq<string>)
    requires |rows| == |order|
    requires forall i :: 0 <= i < |order| ==> KeyManager.KeyShape(order[i]) && StorableRow(rows[i])
    ensures SplitLines(Join("\n", GridBlock(order, rows))) == GridBlock(order, rows)
  {
    var gb := GridBlock(order, rows);
    GridBlockFacts(order, rows);
    assert NoBreaks(gb) && gb[|gb| - 1] != [] by {
      forall i | 0 <= i < |gb| ensures !HasLineBreak(gb[i]) && gb[i] != [] { assert gb[i] in gb; }
    }
    SplitLinesJoin(gb);
  }

  lemma GridBlockParse(order: seq<string>, rows: seq<string>)
    requires |rows| == |order| && Distinct(order)
    requires forall i :: 0 <= i < |order| ==> KeyManager.KeyShape(order[i]) && StorableRow(rows[i])
    ensures ParseGridSection(GridBlock(order, rows)) == Ok(Dict(order, RowMap(order, rows)))
  {
    GridBlockHeader(order, rows);
    ParseGridLinesOk(Empty(), order, rows);
    EmptyPlus(order, RowMap(order, rows));
  }

  lemma GridBlockHeader(order: seq<string>, rows: seq<string>)
    requires |rows| == |order|
    ensures GridBlock(order, rows) != [] && StartsWith(GridBlock(order, rows)[0], "X ")
    ensures GridBlock(order, rows)[1..] == RowLines(order, rows)
  {
    var gb := GridBlock(order, rows);
    assert gb[0][..2] == "X ";
  }

  lemma EmptyPlus(order: seq<string>, m: map<string, string>)
    ensures [] + order == order && map[] + m == m
  {
  }

  /**
   * read_tracker_file on a rendered tracker: the keys with their paths and
   * the rows come back in the written order, together with both edit values.
   */
  lemma ParseRendered(order: seq<string>, paths: map<string, string>, rows: seq<string>, lke: string, lge: string, cwd: string)
    requires Storable(order, paths, rows, lke, lge, cwd)
    ensures ParseTracker(Unlines(Layout(order, paths, rows, lke, lge)), cwd)
            == Ok(Tracker(Dict(order, Restrict(paths, order)), Dict(order, RowMap(order, rows)), lke, lge))
  {
    KeySectionRead(order, paths, rows, lke, lge, cwd);
    KeyBlockParsed(order, paths, rows, lke, lge, cwd);
    GridSectionRead(order, paths, rows, lke, lge, cwd);
    GridBlockParsed(order, paths, rows, lke, lge, cwd);
    KeyEditRead(order, paths, rows, lke, lge, cwd);
    GridEditRead(order, paths, rows, lke, lge, cwd);
  }

  /**
   * Writing a tracker and reading the file back: the key definitions come
   * back unchanged in natural order, the grid holds one row per key in the
   * same order (the stored row, or '.' for every key when there was none)
   * and both edit markers are recovered.
   */
  lemma WriteThenRead(keys: Dict<string>, grid: map<string, string>, lke: string, lge: string, cwd: string)
    requires Valid(keys)
    requires forall k | k in keys.values :: KeyManager.KeyShape(k) && StorablePath(keys.values[k], cwd)
    requires forall k | k in keys.values && k in grid :: StorableRow(grid[k])
    requires StorableEdit(lke) && StorableEdit(lge) && !Contains(lke, GridEditLabel)
    ensures WriteTrackerFile(keys, grid, lke, lge).Ok?
    ensures ReadBack(ReadTrackerFile(Some(WriteTrackerFile(keys, grid, lke, lge).value), cwd), keys, grid, lke, lge)
  {
    KeysComparable(keys);
    var sorted := NaturalOrder.NaturalSort(keys.order).value;
    SortedMembers(sorted, keys);
    var c := RenderTracker(sorted, keys, grid, lke, lge);
    assert WriteTrackerFile(keys, grid, lke, lge) == Ok(c);
    ReadRendered(c, sorted, keys, grid, lke, lge, cwd);
  }

  /**
   * What reading back a written tracker gives: the key definitions
   * unchanged in natural order, one row per key in the same order (the
   * stored row, or '.' for every key when there was none) and both edit
   * markers.
   */
  predicate ReadBack(t: Tracker, keys: Dict<string>, grid: map<string, string>, lke: string, lge: string) {
    t.keys.values == keys.values && SortedKeys(t.keys.order, keys) && t.grid.order == t.keys.order
    && t.grid.values.Keys == keys.values.Keys
    && (forall k | k in keys.values ::
          t.grid.values[k] == if k in grid then grid[k] else Repeat(DependencyGrid.EmptyChar, |keys.order|))
    && t.lastKeyEdit == lke && t.lastGridEdit == lge
  }

  lemma ReadRendered(c: string, sorted: seq<string>, keys: Dict<string>, grid: map<string, string>, lke: string, lge: string, cwd: string)
    requires Valid(keys) && SortedKeys(sorted, keys) && multiset(sorted) == multiset(keys.order)
    requires c == RenderTracker(sorted, keys, grid, lke, lge)
    requires forall k | k in keys.values :: KeyManager.KeyShape(k) && StorablePath(keys.values[k], cwd)
    requires forall k | k in keys.values && k in grid :: StorableRow(grid[k])
    requires StorableEdit(lke) && StorableEdit(lge) && !Contains(lke, GridEditLabel)
    ensures ReadBack(ReadTrackerFile(Some(c), cwd), keys, grid, lke, lge)
  {
    var rows := StoredRows(sorted, grid);
    SortedStorable(sorted, keys, grid, lke, lge, cwd);
    ParseRendered(sorted, keys.values, rows, lke, lge, cwd);
    var t := Tracker(Dict(sorted, Restrict(keys.values, sorted)), Dict(sorted, RowMap(sorted, rows)), lke, lge);
    assert ReadTrackerFile(Some(c), cwd) == t;
    ParsedReadBack(t, sorted, keys, grid, lke, lge);
  }

  lemma SortedStorable(sorted: seq<string>, keys: Dict<string>, grid: map<string, string>, lke: string, lge: string, cwd: string)
    requires Valid(keys) && SortedKeys(sorted, keys)
    requires forall k | k in keys.values :: KeyManager.KeyShape(k) && StorablePath(keys.values[k], cwd)
    requires forall k | k in keys.values && k in grid :: StorableRow(grid[k])
    requires StorableEdit(lke) && StorableEdit(lge) && !Contains(lke, GridEditLabel)
    ensures Storable(sorted, keys.values, StoredRows(sorted, grid), lke, lge, cwd)
  {
    StoredRowsStorable(sorted, keys, grid);
  }

  lemma ParsedReadBack(t: Tracker, sorted: seq<string>, keys: Dict<string>, grid: map<string, string>, lke: string, lge: string)
    requires Valid(keys) && SortedKeys(sorted, keys) && multiset(sorted) == multiset(keys.order)
    requires t == Tracker(Dict(sorted, Restrict(keys.values, sorted)), Dict(sorted, RowMap(sorted, StoredRows(sorted, grid))), lke, lge)
    ensures ReadBack(t, keys, grid, lke, lge)
  {
    assert |sorted| == |keys.order| by {
      assert |multiset(sorted)| == |multiset(keys.order)|;
    }
    RestrictAll(keys.values, sorted);
    RowMapStored(sorted, grid);
  }

  /** Each key's row in the parsed grid is its stored row, or the all-empty row when it had none. */
  lemma RowMapStored(sorted: seq<string>, grid: map<string, string>)
    requires Distinct(sorted)
    ensures forall k :: k in RowMap(sorted, StoredRows(sorted, grid)) <==> k in sorted
    ensures forall k | k in sorted ::
              RowMap(sorted, StoredRows(sorted, grid))[k] == if k in grid then grid[k] else Repeat(DependencyGrid.EmptyChar, |sorted|)
  {
    var m := RowMap(sorted, StoredRows(sorted, grid));
    forall k | k in sorted ensures m[k] == if k in grid then grid[k] else Repeat(DependencyGrid.EmptyChar, |sorted|) {
      var i :| 0 <= i < |sorted| && sorted[i] == k;
      assert m[sorted[i]] == StoredRows(sorted, grid)[i];
    }
  }

  /** Keys of the tracker shape all start with a digit, so they can be compared. */
  lemma KeysComparable(keys: Dict<string>)
    requires Valid(keys) && forall k | k in keys.values :: KeyManager.KeyShape(k)
    ensures NaturalOrder.Comparable(keys.order)
  {
    forall i | 0 <= i < |keys.order| ensures keys.order[i] != [] && IsDigit(keys.order[i][0]) {
      KeyShapeChars(keys.order[i]);
    }
  }

  lemma StoredRowsStorable(order: seq<string>, keys: Dict<string>, grid: map<string, string>)
    requires SortedKeys(order, keys)
    requires forall k | k in keys.values :: KeyManager.KeyShape(k)
    requires forall k | k in keys.values && k in grid :: StorableRow(grid[k])
    ensures forall i :: 0 <= i < |order| ==> StorableRow(StoredRows(order, grid)[i])
  {
    forall i | 0 <= i < |order| ensures StorableRow(StoredRows(order, grid)[i]) {
      if order[i] !in grid {
        RepeatStorable(DependencyGrid.EmptyChar, |order|);
      }
    }
  }

  lemma RepeatStorable(c: char, n: nat)
    requires n >= 1 && !IsLineBreak(c) && !IsSpace(c)
    ensures StorableRow(Repeat(c, n))
  {
    assert Repeat(c, n)[n - 1] == c;
  }

  lemma RestrictAll(m: map<string, string>, order: seq<string>)
    requires (forall k | k in order :: k in m) && (forall k | k in m :: k in order)
    ensures Restrict(m, order) == m
  {
  }
}
