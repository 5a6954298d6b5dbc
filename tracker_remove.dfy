// remove_file_from_tracker of tracker_io.py: a file's key taken out of a
// tracker file.  Its definition line, its entry on the X axis and its row
// go, and every other row loses the character in the removed key's
// column.  The files on disk are a map from path to content.
module TrackerRemoval {
  import opened Outcomes
  import opened Text
  import opened Dicts
  import opened Lines
  import DependencyGrid
  import KeyManager
  import TrackerIO
  import TrackerEdits

  /** f.writelines(lines): the lines one after another. */
  function WriteLines(ls: seq<string>): string
    decreases |ls|
  {
    if ls == [] then [] else ls[0] + WriteLines(ls[1..])
  }

  const KeySectionMissing := "Key Definitions section not found."

  /** The lines from two after the key start marker up to the key end marker, if both are there. */
  function KeyLinesOf(lines: seq<string>): (r: Option<seq<string>>)
    ensures r.None? <==> (TrackerIO.KeyStart + "\n") !in lines || (TrackerIO.KeyEnd + "\n") !in lines
  {
    match (TrackerEdits.LineIndex(lines, TrackerIO.KeyStart + "\n"), TrackerEdits.LineIndex(lines, TrackerIO.KeyEnd + "\n"))
    case (Some(s), Some(e)) => Some(TrackerEdits.Between(lines, s + 2, e))
    case _ => None
  }

  /**
   * The key to remove: the first key of the key section whose stored path
   * is the normalised path of the file.  A missing marker or a key line
   * that does not unpack is reported as a missing key section; a path
   * with no key as a file missing from the tracker.
   */
  function RemovedKey(lines: seq<string>, fileToRemove: string, cwd: string): (r: Result<string>)
    ensures KeyLinesOf(lines).None? ==> r == Err(ValueError(KeySectionMissing))
    ensures r.Err? ==> r.error.ValueError?
    ensures r.Ok? ==> KeyLinesOf(lines).Some?
                      && var d := TrackerEdits.ExistingKeyLines(Empty(), KeyLinesOf(lines).value);
                      d.Some? && r.value in d.value.values && d.value.values[r.value] == KeyManager.KeyPath(fileToRemove, cwd)
    ensures r.Ok? ==> var d := TrackerEdits.ExistingKeyLines(Empty(), KeyLinesOf(lines).value).value;
                      exists j :: 0 <= j < |d.order| && d.order[j] == r.value
                                  && forall i :: 0 <= i < j ==> d.values[d.order[i]] != KeyManager.KeyPath(fileToRemove, cwd)
  {
    match KeyLinesOf(lines)
    case None => Err(ValueError(KeySectionMissing))
    case Some(keyLines) =>
      match TrackerEdits.ExistingKeyLines(Empty(), keyLines)
      case None => Err(ValueError(KeySectionMissing))
      case Some(d) =>
        var items := Items(d);
        match KeyManager.FirstKeyWithPath(items, KeyManager.KeyPath(fileToRemove, cwd))
        case None => Err(ValueError("File '" + fileToRemove + "' not found in tracker."))
        case Some(k) =>
          var j :| 0 <= j < |items| && items[j] == (k, KeyManager.KeyPath(fileToRemove, cwd));
          assert items[j] == (d.order[j], d.values[d.order[j]]);
          Ok(k)
  }

  /** The keys of the X header line: `line.strip().split(" ", 1)[1].split()`, IndexError without a space. */
  function AxisKeys(line: string): (r: Result<seq<string>>)
    ensures r.Err? <==> !Contains(Strip(line), " ")
    ensures r.Err? ==> r.error == IndexError
  {
    var parts := SplitOnce(Strip(line), " ");
    if |parts| == 1 then Err(IndexError) else Ok(SplitWhitespace(parts[1]))
  }

  /**
   * The grid section: the X axis keys and the row lines after the X line
   * up to the grid end marker.  A missing marker is a ValueError, a grid
   * start marker on the last line or an X line without a space an
   * IndexError, and an X axis without the key a ValueError.
   */
  function GridAxis(lines: seq<string>, key: string): (r: Result<(seq<string>, seq<string>)>)
    ensures (TrackerIO.GridStart + "\n") !in lines || (TrackerIO.GridEnd + "\n") !in lines ==> r.Err? && r.error.ValueError?
    ensures r.Ok? ==> key in r.value.0
  {
    match (TrackerEdits.LineIndex(lines, TrackerIO.GridStart + "\n"), TrackerEdits.LineIndex(lines, TrackerIO.GridEnd + "\n"))
    case (None, _) => Err(ValueError("Grid section error: '---GRID_START---\\n' is not in list"))
    case (_, None) => Err(ValueError("Grid section error: '---GRID_END---\\n' is not in list"))
    case (Some(s), Some(e)) =>
      if s + 1 >= |lines| then Err(IndexError)
      else
        match AxisKeys(lines[s + 1])
        case Err(err) => Err(err)
        case Ok(xs) =>
          if key !in xs then Err(ValueError("Grid section error: Key '" + key + "' not found on X-axis."))
          else Ok((xs, TrackerEdits.Between(lines, s + 2, e)))
  }

  /** The key definition lines kept: those holding ": " that do not start with the key and a colon. */
  function KeptKeyLines(ls: seq<string>, key: string): (r: seq<string>)
    decreases |ls|
  {
    if ls == [] then []
    else (if Contains(ls[0], ": ") && !StartsWith(ls[0], key + ":") then [ls[0]] else []) + KeptKeyLines(ls[1..], key)
  }

  /** `s[:i] + s[i + 1:]`: the character at i taken out, nothing when i is past the end. */
  function DropAt(s: string, i: nat): (r: string)
    ensures i < |s| ==> |r| == |s| - 1 && forall j :: 0 <= j < |r| ==> r[j] == if j < i then s[j] else s[j + 1]
    ensures i >= |s| ==> r == s
  {
    if i < |s| then s[..i] + s[i + 1..] else s
  }

  /** The row written for a row line other than the key's own: its decoded cells without column `at`, compressed. */
  function ShrunkRow(k: string, v: string, at: nat): string {
    k + " = " + DependencyGrid.Compress(DropAt(DependencyGrid.Decode(v), at)) + "\n"
  }

  /** What one row line contributes: the shrunk row of another key's matching line, else nothing. */
  function RowLineStep(line: string, key: string, at: nat): seq<string> {
    var m := TrackerEdits.GridMatch(line);
    if m.Some? && m.value.0 != key then [ShrunkRow(m.value.0, m.value.1, at)] else []
  }

  /** The rows written back: each matching row line of another key, shrunk; other lines dropped. */
  function ShrunkRows(ls: seq<string>, key: string, at: nat): (r: seq<string>)
    decreases |ls|
  {
    if ls == [] then [] else RowLineStep(ls[0], key, at) + ShrunkRows(ls[1..], key, at)
  }

  /** The lines written in place of the tracker. */
  function RemovalLines(keyLines: seq<string>, key: string, lastKeyEdit: Option<string>, xs: seq<string>, rowLines: seq<string>): seq<string>
    requires key in xs
  {
    [TrackerIO.KeyStart + "\n", TrackerIO.KeyHeader + "\n"] + KeptKeyLines(keyLines, key) + [TrackerIO.KeyEnd + "\n"]
    + (if lastKeyEdit.Some? then [lastKeyEdit.value] else [])
    + [TrackerEdits.GridEditTag + ": " + key + "\n", TrackerIO.GridStart + "\n", "X " + Join(" ", Without(xs, key)) + "\n"]
    + ShrunkRows(rowLines, key, DependencyGrid.IndexOf(xs, key))
    + [TrackerIO.GridEnd + "\n"]
  }

  /**
   * remove_file_from_tracker: the new content of the tracker file, or
   * the error it raises.  FileNotFoundError for a missing tracker, then
   * the key section's errors, then the grid section's.
   */
  method RemoveFileFromTracker(outputFile: string, fileToRemove: string, files: map<string, string>, cwd: string)
    returns (r: Result<string>)
    ensures outputFile !in files ==> r == Err(FileNotFoundError(outputFile))
    ensures outputFile in files ==>
              var lines := ReadLines(files[outputFile]);
              var key := RemovedKey(lines, fileToRemove, cwd);
              (key.Err? ==> r == Err(key.error))
              && (key.Ok? && GridAxis(lines, key.value).Err? ==> r == Err(GridAxis(lines, key.value).error))
              && (key.Ok? && GridAxis(lines, key.value).Ok? ==>
                    var axis := GridAxis(lines, key.value).value;
                    r == Ok(WriteLines(RemovalLines(KeyLinesOf(lines).value, key.value,
                                                    TrackerEdits.FirstLineWith(lines, TrackerEdits.KeyEditTag), axis.0, axis.1))))
  {
    if outputFile !in files {
      return Err(FileNotFoundError(outputFile));
    }
    var lines := ReadLines(files[outputFile]);
    var found := RemovedKey(lines, fileToRemove, cwd);
    if found.Err? {
      return Err(found.error);
    }
    var key := found.value;
    var keyLines := KeyLinesOf(lines).value;
    var kept := KeepKeyLines(keyLines, key);
    var lastKeyEdit := TrackerEdits.FirstLineWith(lines, TrackerEdits.KeyEditTag);
    var axis := GridAxis(lines, key);
    if axis.Err? {
      return Err(axis.error);
    }
    var (xs, rowLines) := axis.value;
    var shrunk := ShrinkRows(rowLines, key, DependencyGrid.IndexOf(xs, key));
    var updated := [TrackerIO.KeyStart + "\n", TrackerIO.KeyHeader + "\n"] + kept + [TrackerIO.KeyEnd + "\n"]
                   + (if lastKeyEdit.Some? then [lastKeyEdit.value] else [])
                   + [TrackerEdits.GridEditTag + ": " + key + "\n", TrackerIO.GridStart + "\n", "X " + Join(" ", Without(xs, key)) + "\n"]
                   + shrunk
                   + [TrackerIO.GridEnd + "\n"];
    return Ok(WriteLines(updated));
  }

  /** The loop over the key section keeping the other keys' definition lines. */
  method KeepKeyLines(keyLines: seq<string>, key: string) returns (kept: seq<string>)
    ensures kept == KeptKeyLines(keyLines, key)
  {
    kept := [];
    var i := 0;
    while i < |keyLines|
      invariant 0 <= i <= |keyLines|
      invariant kept + KeptKeyLines(keyLines[i..], key) == KeptKeyLines(keyLines, key)
    {
      var line := keyLines[i];
      assert keyLines[i..] == [line] + keyLines[i + 1..];
      if Contains(line, ": ") && !StartsWith(line, key + ":") {
        kept := kept + [line];
      }
      i := i + 1;
    }
  }

  /** The loop over the row lines writing every other key's row without column `at`. */
  method ShrinkRows(rowLines: seq<string>, key: string, at: nat) returns (rows: seq<string>)
    ensures rows == ShrunkRows(rowLines, key, at)
  {
    rows := [];
    var j := 0;
    while j < |rowLines|
      invariant 0 <= j <= |rowLines|
      invariant rows + ShrunkRows(rowLines[j..], key, at) == ShrunkRows(rowLines, key, at)
    {
      ShrunkRowsAt(rowLines, j, key, at);
      var step := RowLineStep(rowLines[j], key, at);
      assert (rows + step) + ShrunkRows(rowLines[j + 1..], key, at)
             == rows + (step + ShrunkRows(rowLines[j + 1..], key, at));
      rows := rows + step;
      j := j + 1;
    }
    assert rowLines[j..] == [];
  }

  lemma ShrunkRowsAt(ls: seq<string>, j: nat, key: string, at: nat)
    requires j < |ls|
    ensures ShrunkRows(ls[j..], key, at) == RowLineStep(ls[j], key, at) + ShrunkRows(ls[j + 1..], key, at)
  {
    assert ls[j..][1..] == ls[j + 1..];
  }

  // ---------------------------------------------------------------------
  // What the removal keeps

  /** The kept key lines are, in order, the lines holding ": " other than the removed key's. */
  lemma {:induction false} KeptKeyLinesMembers(ls: seq<string>, key: string, l: string)
    ensures l in KeptKeyLines(ls, key) <==> l in ls && Contains(l, ": ") && !StartsWith(l, key + ":")
    decreases |ls|
  {
    if ls != [] {
      KeptKeyLinesMembers(ls[1..], key, l);
      assert l in ls <==> l == ls[0] || l in ls[1..];
    }
  }

  /** Each row written back is the row line of another key, read by the grid pattern. */
  lemma {:induction false} ShrunkRowsFrom(ls: seq<string>, key: string, at: nat, w: string)
    requires w in ShrunkRows(ls, key, at)
    ensures exists l | l in ls :: TrackerEdits.GridMatch(l).Some? && TrackerEdits.GridMatch(l).value.0 != key
                                  && w == ShrunkRow(TrackerEdits.GridMatch(l).value.0, TrackerEdits.GridMatch(l).value.1, at)
    decreases |ls|
  {
    var m := TrackerEdits.GridMatch(ls[0]);
    if w in RowLineStep(ls[0], key, at) {
      assert ls[0] in ls;
    } else {
      ShrunkRowsFrom(ls[1..], key, at, w);
      var l :| l in ls[1..] && TrackerEdits.GridMatch(l).Some? && TrackerEdits.GridMatch(l).value.0 != key
               && w == ShrunkRow(TrackerEdits.GridMatch(l).value.0, TrackerEdits.GridMatch(l).value.1, at);
      assert l in ls;
    }
  }

  /**
   * A shrunk row decodes to the old row without the removed column, so
   * for distinct axis keys every remaining key's cell is where the new X
   * axis puts it.
   */
  lemma ShrunkRowAligned(xs: seq<string>, key: string, row: string, c: string)
    requires Distinct(xs) && key in xs && c in xs && c != key && |row| == |xs| && !HasDigit(row)
    ensures |DependencyGrid.Decode(DependencyGrid.Compress(DropAt(row, DependencyGrid.IndexOf(xs, key))))| == |Without(xs, key)|
    ensures c in Without(xs, key)
    ensures DependencyGrid.Decode(DependencyGrid.Compress(DropAt(row, DependencyGrid.IndexOf(xs, key))))[DependencyGrid.IndexOf(Without(xs, key), c)]
            == row[DependencyGrid.IndexOf(xs, c)]
  {
    var at := DependencyGrid.IndexOf(xs, key);
    var p := DependencyGrid.IndexOf(xs, c);
    var shrunk := DropAt(row, at);
    assert !HasDigit(shrunk) by {
      forall j | 0 <= j < |shrunk| ensures !IsDigit(shrunk[j]) {
        assert shrunk[j] == row[j] || shrunk[j] == row[j + 1];
      }
    }
    assert DependencyGrid.Decode(DependencyGrid.Compress(shrunk)) == shrunk by {
      DependencyGrid.CompressRoundTrip(shrunk);
    }
    var w := Without(xs, key);
    assert |w| == |xs| - 1 && c in w && DependencyGrid.IndexOf(w, c) == (if p < at then p else p - 1) by {
      WithoutIndex(xs, key, c);
    }
    assert p != at && at < |row| && p < |row|;
    assert shrunk[if p < at then p else p - 1] == row[p];
  }

  /** A remaining key's position on the new X axis: one less when it came after the removed key. */
  lemma WithoutIndex(xs: seq<string>, key: string, c: string)
    requires Distinct(xs) && key in xs && c in xs && c != key
    ensures |Without(xs, key)| == |xs| - 1 && c in Without(xs, key)
    ensures DependencyGrid.IndexOf(Without(xs, key), c)
            == if DependencyGrid.IndexOf(xs, c) < DependencyGrid.IndexOf(xs, key) then DependencyGrid.IndexOf(xs, c) else DependencyGrid.IndexOf(xs, c) - 1
  {
    WithoutAt(xs, key, 0);
    var w := Without(xs, key);
    var at := DependencyGrid.IndexOf(xs, key);
    var p := DependencyGrid.IndexOf(xs, c);
    if p < at {
      forall j | 0 <= j < p ensures w[j] != c {
        WithoutAt(xs, key, j);
      }
      WithoutAt(xs, key, p);
      IndexOfIs(w, c, p);
    } else {
      forall j | 0 <= j < p - 1 ensures w[j] != c {
        WithoutAt(xs, key, j);
      }
      WithoutAt(xs, key, p - 1);
      IndexOfIs(w, c, p - 1);
    }
  }

  /** The first position of k is q when k is at q and nowhere before. */
  lemma IndexOfIs(s: seq<string>, k: string, q: nat)
    requires q < |s| && s[q] == k && forall j | 0 <= j < q :: s[j] != k
    ensures DependencyGrid.IndexOf(s, k) == q
  {
  }

  /** The rest of a list of distinct keys is distinct and, past the removed key's head, still holds it. */
  lemma DistinctTail(xs: seq<string>, key: string)
    requires Distinct(xs) && xs != []
    ensures Distinct(xs[1..])
    ensures xs[0] == key ==> key !in xs[1..]
    ensures xs[0] != key && key in xs ==> key in xs[1..] && DependencyGrid.IndexOf(xs, key) == DependencyGrid.IndexOf(xs[1..], key) + 1
  {
    forall i, j | 0 <= i < j < |xs[1..]| ensures xs[1..][i] != xs[1..][j] {
      assert xs[1..][i] == xs[i + 1] && xs[1..][j] == xs[j + 1];
    }
    forall i | 0 <= i < |xs[1..]| ensures xs[0] != xs[1..][i] {
      assert xs[1..][i] == xs[i + 1];
    }
    if xs[0] != key && key in xs {
      var at := DependencyGrid.IndexOf(xs, key);
      assert at > 0 && xs[1..][at - 1] == key;
      IndexOfIs(xs[1..], key, at - 1);
    }
  }

  /** Taking a key out of distinct keys leaves one key less. */
  lemma {:induction false} WithoutLength(xs: seq<string>, key: string)
    requires Distinct(xs) && key in xs
    ensures |Without(xs, key)| == |xs| - 1
    decreases |xs|
  {
    DistinctTail(xs, key);
    if xs[0] == key {
      WithoutAbsent(xs[1..], key);
    } else {
      WithoutLength(xs[1..], key);
    }
  }

  /** Taking a key out of distinct keys shifts the keys after it one place left. */
  lemma {:induction false} WithoutAt(xs: seq<string>, key: string, j: nat)
    requires Distinct(xs) && key in xs && j < |xs| - 1
    ensures |Without(xs, key)| == |xs| - 1
    ensures Without(xs, key)[j] == if j < DependencyGrid.IndexOf(xs, key) then xs[j] else xs[j + 1]
    decreases |xs|
  {
    WithoutLength(xs, key);
    DistinctTail(xs, key);
    if xs[0] == key {
      WithoutAbsent(xs[1..], key);
      assert Without(xs, key) == xs[1..];
    } else {
      assert Without(xs, key) == [xs[0]] + Without(xs[1..], key);
      if j > 0 {
        WithoutAt(xs[1..], key, j - 1);
      }
    }
  }
}
