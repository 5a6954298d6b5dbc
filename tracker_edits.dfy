// The tracker edits of tracker_io.py: update_tracker (its second
// definition), merge_trackers and remove_file_from_tracker.  The files
// on disk are a map from path to content; a file's lines are its
// content cut after every line feed, as readlines returns them.
module TrackerEdits {
  import opened Outcomes
  import opened Text
  import opened Dicts
  import opened Lines
  import opened PathUtils
  import NaturalOrder
  import DependencyGrid
  import TrackerIO

  // ---------------------------------------------------------------------
  // _read_existing_keys and _read_existing_grid

  /** lines.index(x): the first position of `x`, or None where Python raises ValueError. */
  function LineIndex(lines: seq<string>, x: string): (r: Option<nat>)
    ensures r.Some? ==> r.value < |lines| && lines[r.value] == x && forall j :: 0 <= j < r.value ==> lines[j] != x
    ensures r.None? <==> x !in lines
    decreases |lines|
  {
    if lines == [] then None
    else if lines[0] == x then Some(0)
    else match LineIndex(lines[1..], x)
      case None => None
      case Some(i) => Some(i + 1)
  }

  /** lines[start:end] for an end that is a position of the list. */
  function Between(lines: seq<string>, start: nat, end: nat): (r: seq<string>)
    requires end <= |lines|
    ensures start <= end ==> r == lines[start..end]
    ensures start > end ==> r == []
  {
    if start <= end then lines[start..end] else []
  }

  /**
   * One line of the existing key section: `k, v = line.strip().split(": ", 1)`
   * for a line holding ": "; the unpacking fails (ValueError) when the
   * stripped line no longer holds it.
   */
  function ExistingKeyStep(acc: Dict<string>, line: string): (r: Option<Dict<string>>)
    requires Valid(acc)
    ensures r.Some? ==> Valid(r.value)
  {
    if !Contains(line, ": ") then Some(acc)
    else
      var parts := SplitOnce(Strip(line), ": ");
      if |parts| == 1 then None else Some(Put(acc, parts[0], parts[1]))
  }

  function ExistingKeyLines(acc: Dict<string>, ls: seq<string>): (r: Option<Dict<string>>)
    requires Valid(acc)
    ensures r.Some? ==> Valid(r.value)
    decreases |ls|
  {
    if ls == [] then Some(acc)
    else
      match ExistingKeyStep(acc, ls[0])
      case None => None
      case Some(next) => ExistingKeyLines(next, ls[1..])
  }

  /**
   * _read_existing_keys: the key lines from two lines after the start
   * marker line up to the end marker line; the empty dictionary when a
   * marker line is missing or a line cannot be unpacked.
   */
  function ReadExistingKeys(lines: seq<string>): (r: Dict<string>)
    ensures Valid(r)
    ensures (TrackerIO.KeyStart + "\n") !in lines || (TrackerIO.KeyEnd + "\n") !in lines ==> r == Empty()
  {
    match (LineIndex(lines, TrackerIO.KeyStart + "\n"), LineIndex(lines, TrackerIO.KeyEnd + "\n"))
    case (Some(s), Some(e)) =>
      var d := ExistingKeyLines(Empty(), Between(lines, s + 2, e));
      if d.Some? then d.value else Empty()
    case _ => Empty()
  }

  /** Python's \w, restricted to ASCII. */
  predicate IsWordChar(c: char) { IsAlnum(c) || c == '_' }

  /** The length of the run of word characters at the start of `s`. */
  function WordRun(s: string): (n: nat)
    ensures n <= |s| && forall i :: 0 <= i < n ==> IsWordChar(s[i])
    ensures n < |s| ==> !IsWordChar(s[n])
    decreases |s|
  {
    if s == [] || !IsWordChar(s[0]) then 0 else 1 + WordRun(s[1..])
  }

  /**
   * re.match(r"(\w+) = (.*)", line): the word characters at the start of
   * the line, " = " right after them, and the rest of the line up to the
   * first line feed.  A shorter word cannot be followed by " = ", since a
   * space is not a word character.
   */
  function GridMatch(line: string): (r: Option<(string, string)>)
    ensures r.Some? ==> r.value.0 != [] && forall i :: 0 <= i < |r.value.0| ==> IsWordChar(r.value.0[i])
    ensures r.Some? ==> NoChar(r.value.1, '\n')
  {
    var n := WordRun(line);
    if n == 0 || !StartsWith(line[n..], " = ") then None
    else
      var rest := line[n + 3..];
      var e := TrackerIO.LineEnd(rest, 0);
      Some((line[..n], rest[..e]))
  }

  function ExistingGridLines(acc: Dict<string>, ls: seq<string>): (r: Dict<string>)
    requires Valid(acc)
    ensures Valid(r)
    decreases |ls|
  {
    if ls == [] then acc
    else
      var m := GridMatch(ls[0]);
      ExistingGridLines(if m.Some? then Put(acc, m.value.0, m.value.1) else acc, ls[1..])
  }

  /**
   * _read_existing_grid: the rows matched in the lines after the grid
   * start marker line up to the end marker line; the empty dictionary
   * when a marker line is missing.
   */
  function ReadExistingGrid(lines: seq<string>): (r: Dict<string>)
    ensures Valid(r)
    ensures (TrackerIO.GridStart + "\n") !in lines || (TrackerIO.GridEnd + "\n") !in lines ==> r == Empty()
  {
    match (LineIndex(lines, TrackerIO.GridStart + "\n"), LineIndex(lines, TrackerIO.GridEnd + "\n"))
    case (Some(s), Some(e)) => ExistingGridLines(Empty(), Between(lines, s + 1, e))
    case _ => Empty()
  }

  /** The first line starting with `tag`, if any. */
  function FirstLineWith(lines: seq<string>, tag: string): (r: Option<string>)
    ensures r.Some? ==> r.value in lines && StartsWith(r.value, tag)
    ensures r.None? ==> forall l | l in lines :: !StartsWith(l, tag)
    decreases |lines|
  {
    if lines == [] then None
    else if StartsWith(lines[0], tag) then Some(lines[0])
    else FirstLineWith(lines[1..], tag)
  }

  /**
   * `line.split(":", 1)[1].strip()` on the first line starting with the
   * tag: "" when there is no such line, IndexError when it has no colon.
   */
  function EditMarker(lines: seq<string>, tag: string): (r: Result<string>)
    ensures FirstLineWith(lines, tag).None? ==> r == Ok("")
    ensures r.Err? <==> FirstLineWith(lines, tag).Some? && NoChar(FirstLineWith(lines, tag).value, ':')
    ensures r.Err? ==> r.error == IndexError
  {
    match FirstLineWith(lines, tag)
    case None => Ok("")
    case Some(l) =>
      var parts := SplitOnce(l, ":");
      if |parts| == 1 then
        ContainsCharIff(l, ':');
        Err(IndexError)
      else
        ContainsCharIff(l, ':');
        Ok(Strip(parts[1]))
  }

  // ---------------------------------------------------------------------
  // update_tracker: choosing the file and the keys

  /**
   * The output file: for a mini tracker the mini tracker of the module of
   * the first key's file (ValueError without a file-to-module mapping or
   * without a module for that file; "" for no keys, which writes
   * nothing); otherwise the given file.
   */
  function TargetFile(outputFile: string, keyMap: Dict<string>, trackerType: string,
                      fileToModule: map<string, string>, cwd: string): (r: Result<string>)
    requires Valid(keyMap)
    ensures trackerType != "mini" ==> r == Ok(outputFile)
    ensures trackerType == "mini" && fileToModule == map[] ==> r.Err? && r.error.ValueError?
    ensures trackerType == "mini" && fileToModule != map[] && keyMap.order == [] ==> r == Ok("")
    ensures trackerType == "mini" && fileToModule != map[] && keyMap.order != [] ==>
              var file := keyMap.values[keyMap.order[0]];
              if file in fileToModule && fileToModule[file] != []
              then r.Ok? && TrackerIO.InDirectory(r.value, fileToModule[file], TrackerIO.MiniTrackerName)
              else r.Err? && r.error.ValueError?
  {
    if trackerType != "mini" then Ok(outputFile)
    else if fileToModule == map[] then Err(ValueError("file_to_module must be provided for mini-tracker updates"))
    else if keyMap.order == [] then Ok("")
    else
      var file := keyMap.values[keyMap.order[0]];
      if file !in fileToModule || fileToModule[file] == [] then Err(ValueError("Could not determine module path"))
      else TrackerIO.GetTrackerPath("", "mini", Some(fileToModule[file]), "", "", cwd)
  }

  /** The keys a main tracker keeps: "1" and one more character, or "2", a character and a digit-free lower-case tail. */
  predicate MainKey(k: string)
    requires k != []
  {
    (StartsWith(k, "1") && |k| == 2) || (k[0] == '2' && |k| > 2 && IsLower(k[2]) && !HasDigit(k[2..]))
  }

  /** The keys of `order` that a main tracker keeps, in order. */
  function MainKeys(order: seq<string>): (r: seq<string>)
    requires forall i :: 0 <= i < |order| ==> order[i] != []
    ensures forall k :: k in r <==> k in order && MainKey(k)
    decreases |order|
  {
    if order == [] then []
    else (if MainKey(order[0]) then [order[0]] else []) + MainKeys(order[1..])
  }

  lemma {:induction false} MainKeysDistinct(order: seq<string>)
    requires Distinct(order) && forall i :: 0 <= i < |order| ==> order[i] != []
    ensures Distinct(MainKeys(order))
    decreases |order|
  {
    if order != [] {
      TrackerIO.DistinctTail(order);
      MainKeysDistinct(order[1..]);
      var head: seq<string> := if MainKey(order[0]) then [order[0]] else [];
      AppendDistinct(head, MainKeys(order[1..]));
    }
  }

  /**
   * The keys update_tracker works with: for a main tracker only the main
   * keys (IndexError as soon as a key is empty, since its first character
   * is read), for the other trackers every key, in the given order.
   */
  function FilterKeys(keyMap: Dict<string>, trackerType: string): (r: Result<Dict<string>>)
    requires Valid(keyMap)
    ensures r.Ok? ==> Valid(r.value)
    ensures trackerType != "main" ==> r == Ok(keyMap)
    ensures trackerType == "main" ==> (r.Err? <==> "" in keyMap.values) && (r.Err? ==> r.error == IndexError)
    ensures trackerType == "main" && r.Ok? ==>
              (forall k :: k in r.value.values <==> k in keyMap.values && MainKey(k))
              && forall k | k in r.value.values :: r.value.values[k] == keyMap.values[k]
  {
    if trackerType != "main" then Ok(keyMap)
    else if "" in keyMap.values then Err(IndexError)
    else
      assert forall i :: 0 <= i < |keyMap.order| ==> keyMap.order[i] != [] by {
        forall i | 0 <= i < |keyMap.order| ensures keyMap.order[i] != [] {
          assert keyMap.order[i] in keyMap.values;
        }
      }
      var ks := MainKeys(keyMap.order);
      MainKeysDistinct(keyMap.order);
      Ok(Dict(ks, map k | k in ks :: keyMap.values[k]))
  }

  /** The key order written: natural order (TypeError when keys cannot be compared), or the dictionary's own order. */
  function KeyOrder(d: Dict<string>, sortKeys: bool): (r: Result<seq<string>>)
    requires Valid(d)
    ensures sortKeys ==> (r.Err? <==> !NaturalOrder.Comparable(d.order)) && (r.Err? ==> r.error == TypeError)
    ensures !sortKeys ==> r == Ok(d.order)
    ensures r.Ok? ==> TrackerIO.SortedKeysOrIn(r.value, d, sortKeys)
    ensures r.Ok? ==> Distinct(r.value) && (forall k | k in r.value :: k in d.values) && (forall k | k in d.values :: k in r.value)
  {
    if !sortKeys then Ok(d.order)
    else
      match NaturalOrder.NaturalSort(d.order)
      case Err(e) => Err(e)
      case Ok(sorted) =>
        TrackerIO.SortedMembers(sorted, d);
        Ok(sorted)
  }

  // ---------------------------------------------------------------------
  // update_tracker: rows

  /** The decoded row a key starts with: 'o' in the key's own column, 'p' in every other. */
  function FreshRow(order: seq<string>, k: string): (row: string)
    ensures |row| == |order| && !HasDigit(row)
    ensures forall j :: 0 <= j < |order| ==> row[j] == if order[j] == k then DependencyGrid.DiagonalChar else DependencyGrid.PlaceholderChar
  {
    seq(|order|, j requires 0 <= j < |order| => if order[j] == k then DependencyGrid.DiagonalChar else DependencyGrid.PlaceholderChar)
  }

  /** For keys listed once, the fresh row is the initial row of the key's position. */
  lemma FreshRowInitial(order: seq<string>, i: nat)
    requires Distinct(order) && i < |order|
    ensures DependencyGrid.IsInitialRow(FreshRow(order, order[i]), i, |order|)
  {
  }

  /** _write_grid's rows: the given row of each key, or its compressed fresh row. */
  function WrittenRows(order: seq<string>, grid: map<string, string>): (r: seq<string>)
    ensures |r| == |order|
    ensures forall i :: 0 <= i < |order| ==>
              r[i] == if order[i] in grid then grid[order[i]] else DependencyGrid.Compress(FreshRow(order, order[i]))
  {
    seq(|order|, i requires 0 <= i < |order| =>
      if order[i] in grid then grid[order[i]] else DependencyGrid.Compress(FreshRow(order, order[i])))
  }

  /**
   * The suggestions for one row applied to its decoded form: a suggestion
   * for a listed column inside the row writes its character only where
   * the row still holds 'p'.
   */
  function ApplyDeps(row: string, deps: seq<(string, char)>, order: seq<string>): (r: string)
    ensures |r| == |row|
    decreases |deps|
  {
    if deps == [] then row
    else
      var (col, c) := deps[0];
      var next := if col in order && DependencyGrid.IndexOf(order, col) < |row| && row[DependencyGrid.IndexOf(order, col)] == DependencyGrid.PlaceholderChar
                  then row[DependencyGrid.IndexOf(order, col) := c] else row;
      ApplyDeps(next, deps[1..], order)
  }

  /** The character of the first suggestion for column j that is not 'p'. */
  function FirstFill(deps: seq<(string, char)>, order: seq<string>, j: nat): (r: Option<char>)
    ensures r.Some? ==> r.value != DependencyGrid.PlaceholderChar
    decreases |deps|
  {
    if deps == [] then None
    else if deps[0].0 in order && DependencyGrid.IndexOf(order, deps[0].0) == j && deps[0].1 != DependencyGrid.PlaceholderChar
    then Some(deps[0].1)
    else FirstFill(deps[1..], order, j)
  }

  /**
   * Applying a row's suggestions changes only cells holding 'p', and each
   * such cell becomes the first suggestion for its column that writes
   * something else.
   */
  lemma {:induction false} ApplyDepsCells(row: string, deps: seq<(string, char)>, order: seq<string>, j: nat)
    requires j < |row|
    ensures ApplyDeps(row, deps, order)[j]
            == if row[j] == DependencyGrid.PlaceholderChar && FirstFill(deps, order, j).Some? then FirstFill(deps, order, j).value else row[j]
    decreases |deps|
  {
    if deps != [] {
      var (col, c) := deps[0];
      var next := if col in order && DependencyGrid.IndexOf(order, col) < |row| && row[DependencyGrid.IndexOf(order, col)] == DependencyGrid.PlaceholderChar
                  then row[DependencyGrid.IndexOf(order, col) := c] else row;
      ApplyDepsCells(next, deps[1..], order, j);
    }
  }

  /** A row with digit-free cells and digit-free suggestions stays digit-free. */
  lemma {:induction false} ApplyDepsNoDigits(row: string, deps: seq<(string, char)>, order: seq<string>)
    requires !HasDigit(row) && forall i :: 0 <= i < |deps| ==> !IsDigit(deps[i].1)
    ensures !HasDigit(ApplyDeps(row, deps, order))
    decreases |deps|
  {
    if deps != [] {
      var (col, c) := deps[0];
      var next := if col in order && DependencyGrid.IndexOf(order, col) < |row| && row[DependencyGrid.IndexOf(order, col)] == DependencyGrid.PlaceholderChar
                  then row[DependencyGrid.IndexOf(order, col) := c] else row;
      assert !HasDigit(next) by {
        forall i | 0 <= i < |next| ensures !IsDigit(next[i]) {
          assert next[i] == row[i] || next[i] == deps[0].1;
        }
      }
      assert forall i :: 0 <= i < |deps[1..]| ==> deps[1..][i] == deps[i + 1];
      ApplyDepsNoDigits(next, deps[1..], order);
    }
  }

  /** The row a suggestion starts from: the current row, else the compressed fresh row. */
  function CurrentRow(order: seq<string>, grid: map<string, string>, k: string): string {
    if k in grid then grid[k] else DependencyGrid.Compress(FreshRow(order, k))
  }

  /**
   * The grid after the suggestions for the rows `keys`: a listed row's
   * decoded form gets its suggestions and is compressed again; an
   * unlisted row is skipped.
   */
  function SuggestedGrid(order: seq<string>, grid: map<string, string>, keys: seq<string>,
                         sugs: map<string, seq<(string, char)>>): (g: map<string, string>)
    requires forall k | k in keys :: k in sugs
    decreases |keys|
  {
    if keys == [] then grid
    else
      var k := keys[0];
      var g1 := if k in order then grid[k := DependencyGrid.Compress(ApplyDeps(DependencyGrid.Decode(CurrentRow(order, grid, k)), sugs[k], order))] else grid;
      SuggestedGrid(order, g1, keys[1..], sugs)
  }

  /** The suggestion loop of update_tracker. */
  method ApplySuggestions(order: seq<string>, grid: map<string, string>, suggestions: Dict<seq<(string, char)>>)
    returns (g: map<string, string>)
    requires Valid(suggestions)
    ensures g == SuggestedGrid(order, grid, suggestions.order, suggestions.values)
  {
    g := grid;
    var i := 0;
    while i < |suggestions.order|
      invariant 0 <= i <= |suggestions.order|
      invariant SuggestedGrid(order, g, suggestions.order[i..], suggestions.values)
                == SuggestedGrid(order, grid, suggestions.order, suggestions.values)
    {
      var rowKey := suggestions.order[i];
      assert suggestions.order[i..][1..] == suggestions.order[i + 1..];
      if rowKey in order {
        var current := if rowKey in g then g[rowKey] else DependencyGrid.Compress(FreshRow(order, rowKey));
        var decompressed := DependencyGrid.Decompress(current);
        var deps := suggestions.values[rowKey];
        var j := 0;
        while j < |deps|
          invariant 0 <= j <= |deps|
          invariant ApplyDeps(decompressed, deps[j..], order) == ApplyDeps(DependencyGrid.Decode(current), deps, order)
        {
          assert deps[j..][1..] == deps[j + 1..];
          var (colKey, depChar) := deps[j];
          if colKey in order {
            var index := DependencyGrid.IndexOf(order, colKey);
            if index < |decompressed| && decompressed[index] == DependencyGrid.PlaceholderChar {
              decompressed := decompressed[index := depChar];
            }
          }
          j := j + 1;
        }
        g := g[rowKey := DependencyGrid.Compress(decompressed)];
      }
      i := i + 1;
    }
  }

  /**
   * What the suggestions do to the grid: rows without suggestions, and
   * rows of unlisted keys, are unchanged; each listed row with suggestions
   * is its current row with the suggestions applied, compressed again.
   */
  lemma {:induction false} SuggestedRows(order: seq<string>, grid: map<string, string>, keys: seq<string>,
                                         sugs: map<string, seq<(string, char)>>)
    requires Distinct(keys) && forall k | k in keys :: k in sugs
    ensures var g := SuggestedGrid(order, grid, keys, sugs);
            g.Keys == grid.Keys + (set k | k in keys && k in order)
            && (forall k | k in grid && !(k in keys && k in order) :: g[k] == grid[k])
            && (forall k | k in keys && k in order ::
                  g[k] == DependencyGrid.Compress(ApplyDeps(DependencyGrid.Decode(CurrentRow(order, grid, k)), sugs[k], order)))
  {
    SuggestedKeys(order, grid, keys, sugs);
    SuggestedUntouched(order, grid, keys, sugs);
    SuggestedChanged(order, grid, keys, sugs);
  }

  /** The grid after the first suggestion row: that row set, when its key is listed. */
  function FirstSuggested(order: seq<string>, grid: map<string, string>, keys: seq<string>,
                          sugs: map<string, seq<(string, char)>>): map<string, string>
    requires keys != [] && forall k | k in keys :: k in sugs
  {
    var k := keys[0];
    if k in order then grid[k := DependencyGrid.Compress(ApplyDeps(DependencyGrid.Decode(CurrentRow(order, grid, k)), sugs[k], order))] else grid
  }

  lemma SuggestedUnfold(order: seq<string>, grid: map<string, string>, keys: seq<string>,
                        sugs: map<string, seq<(string, char)>>)
    requires keys != [] && forall k | k in keys :: k in sugs
    ensures forall k | k in keys[1..] :: k in sugs
    ensures SuggestedGrid(order, grid, keys, sugs) == SuggestedGrid(order, FirstSuggested(order, grid, keys, sugs), keys[1..], sugs)
  {
  }

  lemma MembersCons(keys: seq<string>)
    requires keys != []
    ensures forall x :: x in keys <==> x == keys[0] || x in keys[1..]
  {
    assert keys == [keys[0]] + keys[1..];
  }

  lemma {:induction false} SuggestedKeys(order: seq<string>, grid: map<string, string>, keys: seq<string>,
                                         sugs: map<string, seq<(string, char)>>)
    requires forall k | k in keys :: k in sugs
    ensures SuggestedGrid(order, grid, keys, sugs).Keys == grid.Keys + (set k | k in keys && k in order)
    decreases |keys|
  {
    if keys != [] {
      var g1 := FirstSuggested(order, grid, keys, sugs);
      SuggestedUnfold(order, grid, keys, sugs);
      SuggestedKeys(order, g1, keys[1..], sugs);
      MembersCons(keys);
    }
  }

  lemma {:induction false} SuggestedUntouched(order: seq<string>, grid: map<string, string>, keys: seq<string>,
                                              sugs: map<string, seq<(string, char)>>)
    requires forall k | k in keys :: k in sugs
    ensures var g := SuggestedGrid(order, grid, keys, sugs);
            forall k | k in grid && !(k in keys && k in order) :: k in g && g[k] == grid[k]
    decreases |keys|
  {
    if keys != [] {
      var g1 := FirstSuggested(order, grid, keys, sugs);
      SuggestedUnfold(order, grid, keys, sugs);
      SuggestedUntouched(order, g1, keys[1..], sugs);
      MembersCons(keys);
    }
  }

  lemma {:induction false} SuggestedChanged(order: seq<string>, grid: map<string, string>, keys: seq<string>,
                                            sugs: map<string, seq<(string, char)>>)
    requires Distinct(keys) && forall k | k in keys :: k in sugs
    ensures var g := SuggestedGrid(order, grid, keys, sugs);
            forall k | k in keys && k in order ::
              k in g && g[k] == DependencyGrid.Compress(ApplyDeps(DependencyGrid.Decode(CurrentRow(order, grid, k)), sugs[k], order))
    decreases |keys|
  {
    if keys != [] {
      var k := keys[0];
      var g1 := FirstSuggested(order, grid, keys, sugs);
      SuggestedUnfold(order, grid, keys, sugs);
      TrackerIO.DistinctTail(keys);
      SuggestedChanged(order, g1, keys[1..], sugs);
      MembersCons(keys);
      if k in order {
        assert k !in keys[1..];
        SuggestedUntouched(order, g1, keys[1..], sugs);
      }
      forall x | x in keys[1..] && x in order
        ensures CurrentRow(order, g1, x) == CurrentRow(order, grid, x)
      {
        assert x != k;
      }
    }
  }

  /**
   * Suggestions never overwrite a set cell: in a digit-free row with
   * digit-free suggestions, every cell keeps its character unless it held
   * 'p', and a 'p' cell takes the first suggestion for its column that
   * writes something else.
   */
  lemma SuggestionsFillPlaceholders(order: seq<string>, grid: map<string, string>, keys: seq<string>,
                                    sugs: map<string, seq<(string, char)>>, k: string, j: nat)
    requires Distinct(keys) && forall x | x in keys :: x in sugs
    requires k in keys && k in order
    requires !HasDigit(DependencyGrid.Decode(CurrentRow(order, grid, k)))
    requires forall i :: 0 <= i < |sugs[k]| ==> !IsDigit(sugs[k][i].1)
    requires j < |DependencyGrid.Decode(CurrentRow(order, grid, k))|
    ensures k in SuggestedGrid(order, grid, keys, sugs)
    ensures var cur, now := DependencyGrid.Decode(CurrentRow(order, grid, k)), DependencyGrid.Decode(SuggestedGrid(order, grid, keys, sugs)[k]);
            |now| == |cur|
            && now[j] == if cur[j] == DependencyGrid.PlaceholderChar && FirstFill(sugs[k], order, j).Some?
                         then FirstFill(sugs[k], order, j).value else cur[j]
  {
    var cur := DependencyGrid.Decode(CurrentRow(order, grid, k));
    SuggestedRows(order, grid, keys, sugs);
    ApplyDepsNoDigits(cur, sugs[k], order);
    DependencyGrid.CompressRoundTrip(ApplyDeps(cur, sugs[k], order));
    ApplyDepsCells(cur, sugs[k], order, j);
  }

  // ---------------------------------------------------------------------
  // update_tracker

  /** What update_tracker does to the files: nothing, a new tracker, or an updated one. */
  datatype Update =
    | NoWrite
    | Created(path: string, content: string)
    | Updated(path: string, content: string, added: set<string>, removed: set<string>)

  const KeyEditTag := "last_KEY_edit"
  const GridEditTag := "last_GRID_edit"

  function LastOr(s: seq<string>, default: string): string {
    if s == [] then default else s[|s| - 1]
  }

  /**
   * update_tracker (the second definition).  A new file gets the chosen
   * keys in order, the last of them as last_KEY_edit, an empty
   * last_GRID_edit and a fresh row for every key.  An existing file keeps
   * its key definitions overlaid by the chosen ones, its edit markers and
   * its rows as they are, a new key getting a fresh row; with suggestions,
   * they are applied to the rows and last_GRID_edit becomes the last row
   * key with suggestions.
   */
  method UpdateTracker(outputFile: string, keyMap: Dict<string>, trackerType: string,
                       suggestions: Dict<seq<(string, char)>>, sortKeys: bool,
                       fileToModule: map<string, string>, files: map<string, string>, cwd: string)
    returns (r: Result<Update>)
    requires Valid(keyMap) && Valid(suggestions)
    ensures TargetFile(outputFile, keyMap, trackerType, fileToModule, cwd).Err? ==>
              r == Err(TargetFile(outputFile, keyMap, trackerType, fileToModule, cwd).error)
    ensures TargetFile(outputFile, keyMap, trackerType, fileToModule, cwd).Ok? && FilterKeys(keyMap, trackerType).Err? ==>
              r == Err(IndexError)
    ensures (TargetFile(outputFile, keyMap, trackerType, fileToModule, cwd).Ok? && FilterKeys(keyMap, trackerType).Ok?
             && KeyOrder(FilterKeys(keyMap, trackerType).value, sortKeys).Err?) ==> r == Err(TypeError)
    ensures r.Ok? <==> TargetFile(outputFile, keyMap, trackerType, fileToModule, cwd).Ok? && FilterKeys(keyMap, trackerType).Ok?
                       && KeyOrder(FilterKeys(keyMap, trackerType).value, sortKeys).Ok?
                       && var path := TargetFile(outputFile, keyMap, trackerType, fileToModule, cwd).value;
                       (path != "" && path in files ==> ExistingStagesOk(files[path], FilterKeys(keyMap, trackerType).value, sortKeys))
    ensures r.Ok? ==> var path := TargetFile(outputFile, keyMap, trackerType, fileToModule, cwd).value;
                      (r.value.NoWrite? <==> path == "")
                      && (r.value.Created? <==> path != "" && path !in files)
                      && (!r.value.NoWrite? ==> r.value.path == path)
    ensures r.Ok? && r.value.Created? ==>
              var keys := FilterKeys(keyMap, trackerType).value;
              var order := KeyOrder(keys, sortKeys).value;
              r.value.content == Unlines(TrackerIO.Layout(order, keys.values, WrittenRows(order, map[]), LastOr(order, ""), ""))
    ensures r.Ok? && r.value.Updated? ==>
              var keys := FilterKeys(keyMap, trackerType).value;
              var lines := ReadLines(files[r.value.path]);
              var existing := ReadExistingKeys(lines);
              var merged := Overlay(existing, keys);
              EditMarker(lines, KeyEditTag).Ok? && EditMarker(lines, GridEditTag).Ok? && KeyOrder(merged, sortKeys).Ok?
              && r.value.added == (set k | k in keys.values && k !in existing.values)
              && r.value.removed == (set k | k in existing.values && k !in keys.values)
              && var order := KeyOrder(merged, sortKeys).value;
              r.value.content == UpdatedContent(order, merged.values, ReadExistingGrid(lines).values, suggestions,
                                                EditMarker(lines, KeyEditTag).value, EditMarker(lines, GridEditTag).value)
  {
    var target := TargetFile(outputFile, keyMap, trackerType, fileToModule, cwd);
    if target.Err? {
      return Err(target.error);
    }
    var path := target.value;
    var filtered := FilterKeys(keyMap, trackerType);
    if filtered.Err? {
      return Err(filtered.error);
    }
    var keys := filtered.value;
    var sorted := KeyOrder(keys, sortKeys);
    if sorted.Err? {
      return Err(sorted.error);
    }
    if path == "" {
      return Ok(NoWrite);
    }
    if path !in files {
      var order := sorted.value;
      var content := Unlines(TrackerIO.Layout(order, keys.values, WrittenRows(order, map[]), LastOr(order, ""), ""));
      return Ok(Created(path, content));
    }
    r := UpdateExisting(path, files[path], keys, suggestions, sortKeys);
  }

  /**
   * The steps of the existing-file branch that can raise all succeed: both
   * edit marker lines, when present, hold a ':', and the merged keys can be
   * ordered.
   */
  predicate ExistingStagesOk(text: string, keys: Dict<string>, sortKeys: bool)
    requires Valid(keys)
  {
    var lines := ReadLines(text);
    EditMarker(lines, KeyEditTag).Ok? && EditMarker(lines, GridEditTag).Ok?
    && KeyOrder(Overlay(ReadExistingKeys(lines), keys), sortKeys).Ok?
  }

  /** The branch of update_tracker for a file that exists: overlay, keep, and apply the suggestions. */
  method UpdateExisting(path: string, text: string, keys: Dict<string>, suggestions: Dict<seq<(string, char)>>, sortKeys: bool)
    returns (r: Result<Update>)
    requires Valid(keys) && Valid(suggestions)
    ensures r.Ok? <==> ExistingStagesOk(text, keys, sortKeys)
    ensures r.Err? ==> r.error == IndexError || r.error == TypeError
    ensures r.Ok? ==> r.value.Updated? && r.value.path == path
    ensures r.Ok? ==>
              var lines := ReadLines(text);
              var existing := ReadExistingKeys(lines);
              var merged := Overlay(existing, keys);
              EditMarker(lines, KeyEditTag).Ok? && EditMarker(lines, GridEditTag).Ok? && KeyOrder(merged, sortKeys).Ok?
              && r.value.added == (set k | k in keys.values && k !in existing.values)
              && r.value.removed == (set k | k in existing.values && k !in keys.values)
              && var order := KeyOrder(merged, sortKeys).value;
              r.value.content == UpdatedContent(order, merged.values, ReadExistingGrid(lines).values, suggestions,
                                                EditMarker(lines, KeyEditTag).value, EditMarker(lines, GridEditTag).value)
  {
    var lines := ReadLines(text);
    var existing := ReadExistingKeys(lines);
    var existingGrid := ReadExistingGrid(lines);
    var lastKeyEdit := EditMarker(lines, KeyEditTag);
    if lastKeyEdit.Err? {
      return Err(lastKeyEdit.error);
    }
    var lastGridEdit := EditMarker(lines, GridEditTag);
    if lastGridEdit.Err? {
      return Err(lastGridEdit.error);
    }
    var added := set k | k in keys.values && k !in existing.values;
    var removed := set k | k in existing.values && k !in keys.values;
    var merged := Overlay(existing, keys);
    var mergedOrder := KeyOrder(merged, sortKeys);
    if mergedOrder.Err? {
      return Err(mergedOrder.error);
    }
    var order := mergedOrder.value;
    var content := RenderUpdated(order, merged.values, existingGrid.values, suggestions, lastKeyEdit.value, lastGridEdit.value);
    return Ok(Updated(path, content, added, removed));
  }

  /**
   * A string buffer written again from its start after seek(0), with no
   * truncate: `s` replaces the beginning of `buffer`, and whatever of
   * `buffer` lies past the end of `s` stays.
   */
  function Overwrite(buffer: string, s: string): (r: string)
    ensures |r| == if |s| < |buffer| then |buffer| else |s|
    ensures r[..|s|] == s
    ensures forall i :: |s| <= i < |buffer| ==> r[i] == buffer[i]
  {
    if |s| < |buffer| then s + buffer[|s|..] else s
  }

  /** The tracker text laid out from the merged keys in `order`, the rows in `grid` and the two edit markers. */
  function Rendering(order: seq<string>, paths: map<string, string>, grid: map<string, string>, keyEdit: string, gridEdit: string): string
    requires forall k | k in order :: k in paths
  {
    Unlines(TrackerIO.Layout(order, paths, WrittenRows(order, grid), keyEdit, gridEdit))
  }

  /**
   * The text an update writes over an existing tracker.  The buffer first
   * gets the merged keys in `order` with the stored grid.  With
   * suggestions, it is rewound and written again with the suggestions
   * applied and the grid edit marker naming the last suggested key; the
   * rewrite is not truncated, so a rewrite shorter than the first text
   * leaves that text's tail behind it.
   */
  function UpdatedContent(order: seq<string>, paths: map<string, string>, grid: map<string, string>,
                          suggestions: Dict<seq<(string, char)>>, keyEdit: string, gridEdit: string): string
    requires forall k | k in order :: k in paths
    requires Valid(suggestions)
  {
    var first := Rendering(order, paths, grid, keyEdit, gridEdit);
    if suggestions.order == [] then first
    else
      var second := Rendering(order, paths, SuggestedGrid(order, grid, suggestions.order, suggestions.values),
                              keyEdit, LastOr(suggestions.order, ""));
      Overwrite(first, second)
  }

  /**
   * Without suggestions the written text is the first rendering.  With
   * suggestions it begins with the rewrite, is the rewrite when that is at
   * least as long as the first rendering, and otherwise ends with the first
   * rendering's tail.
   */
  lemma UpdatedContentShape(order: seq<string>, paths: map<string, string>, grid: map<string, string>,
                            suggestions: Dict<seq<(string, char)>>, keyEdit: string, gridEdit: string)
    requires forall k | k in order :: k in paths
    requires Valid(suggestions)
    ensures var first := Rendering(order, paths, grid, keyEdit, gridEdit);
            var content := UpdatedContent(order, paths, grid, suggestions, keyEdit, gridEdit);
            (suggestions.order == [] ==> content == first)
            && (suggestions.order != [] ==>
                  var second := Rendering(order, paths, SuggestedGrid(order, grid, suggestions.order, suggestions.values),
                                          keyEdit, LastOr(suggestions.order, ""));
                  content[..|second|] == second
                  && (|second| >= |first| ==> content == second)
                  && (|second| < |first| ==> content == second + first[|second|..]))
  {
    if suggestions.order != [] {
      var first := Rendering(order, paths, grid, keyEdit, gridEdit);
      var second := Rendering(order, paths, SuggestedGrid(order, grid, suggestions.order, suggestions.values),
                              keyEdit, LastOr(suggestions.order, ""));
      var content := Overwrite(first, second);
      if |second| >= |first| {
        assert content == content[..|second|];
      } else {
        assert content == content[..|second|] + content[|second|..];
        assert content[|second|..] == first[|second|..];
      }
    }
  }

  /** Renders the stored grid, then rewrites the buffer from its start with the suggestions applied. */
  method RenderUpdated(order: seq<string>, paths: map<string, string>, grid: map<string, string>,
                       suggestions: Dict<seq<(string, char)>>, keyEdit: string, gridEdit: string)
    returns (content: string)
    requires forall k | k in order :: k in paths
    requires Valid(suggestions)
    ensures content == UpdatedContent(order, paths, grid, suggestions, keyEdit, gridEdit)
  {
    content := Rendering(order, paths, grid, keyEdit, gridEdit);
    if suggestions.order != [] {
      var lastEdit := LastOr(suggestions.order, "");
      var g := ApplySuggestions(order, grid, suggestions);
      content := Overwrite(content, Rendering(order, paths, g, keyEdit, lastEdit));
    }
  }
}
