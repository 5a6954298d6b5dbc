// merge_trackers of tracker_io.py: two trackers, already read, merged
// into one.  The merged keys are the secondary's definitions overlaid by
// the primary's; the grid starts as the initial grid of the merged keys,
// the primary's cells are copied into it, and the secondary's cells fill
// only what is still 'p'.
module TrackerMerge {
  import opened Outcomes
  import opened Text
  import opened Dicts
  import DependencyGrid
  import TrackerIO

  type Tracker = TrackerIO.Tracker

  /** The trackers read_tracker_file returns: both dictionaries well formed. */
  predicate WellFormed(t: Tracker) {
    Valid(t.keys) && Valid(t.grid)
  }

  /** `{**secondary["keys"], **primary["keys"]}`. */
  function MergedKeys(primary: Tracker, secondary: Tracker): (d: Dict<string>)
    requires WellFormed(primary) && WellFormed(secondary)
    ensures Valid(d)
    ensures d.values.Keys == primary.keys.values.Keys + secondary.keys.values.Keys
    ensures forall k | k in primary.keys.values :: d.values[k] == primary.keys.values[k]
    ensures forall k | k in secondary.keys.values && k !in primary.keys.values :: d.values[k] == secondary.keys.values[k]
    ensures |secondary.keys.order| <= |d.order| && d.order[..|secondary.keys.order|] == secondary.keys.order
  {
    Overlay(secondary.keys, primary.keys)
  }

  // ---------------------------------------------------------------------
  // The code as written

  /**
   * The position of the first row of `rows` the copy loop writes into: a
   * row whose key is merged and whose zip with the column keys is not
   * empty (every column key of the tracker is merged).
   */
  function FirstWrite(rows: seq<string>, grid: map<string, string>, cols: seq<string>, keys: seq<string>): (r: Option<nat>)
    requires forall k | k in rows :: k in grid
    ensures r.Some? ==> r.value < |keys|
    ensures r.None? <==> cols == [] || forall k | k in rows :: k !in keys || DependencyGrid.Decode(grid[k]) == []
    decreases |rows|
  {
    if rows == [] then None
    else if rows[0] in keys && cols != [] && DependencyGrid.Decode(grid[rows[0]]) != [] then Some(DependencyGrid.IndexOf(keys, rows[0]))
    else
      var r := FirstWrite(rows[1..], grid, cols, keys);
      assert forall k | k in rows :: k == rows[0] || k in rows[1..];
      r
  }

  /**
   * merge_trackers as written.  create_initial_grid returns a dictionary
   * from keys to compressed rows, and the merge indexes it with the
   * integer positions of the rows: the first cell assignment, the first
   * 'p' test or, when no cell is copied at all, the final compression of
   * row 0 raises KeyError with that position.  The only way out without
   * KeyError is create_initial_grid's own ValueError.
   */
  function MergeTrackersAsWritten(primary: Tracker, secondary: Tracker): (r: Result<Tracker>)
    requires WellFormed(primary) && WellFormed(secondary)
    ensures r.Err?
    ensures r.error.ValueError? <==> DependencyGrid.CreateInitialGrid(MergedKeys(primary, secondary).order).Err?
  {
    var keys := MergedKeys(primary, secondary).order;
    match DependencyGrid.CreateInitialGrid(keys)
    case Err(e) => Err(e)
    case Ok(_) =>
      var at :=
        match FirstWrite(primary.grid.order, primary.grid.values, primary.keys.order, keys)
        case Some(i) => i
        case None =>
          match FirstWrite(secondary.grid.order, secondary.grid.values, secondary.keys.order, keys)
          case Some(i) => i
          case None => 0;
      Err(KeyError(NatToString(at)))
  }

  /** Whenever the merged keys are valid, merge_trackers as written raises KeyError. */
  lemma MergeAsWrittenFails(primary: Tracker, secondary: Tracker)
    requires WellFormed(primary) && WellFormed(secondary)
    requires DependencyGrid.CreateInitialGrid(MergedKeys(primary, secondary).order).Ok?
    ensures MergeTrackersAsWritten(primary, secondary).Err?
    ensures MergeTrackersAsWritten(primary, secondary).error.KeyError?
  {
  }

  // ---------------------------------------------------------------------
  // The intended merge

  /** The initial grid's cell: 'o' on the diagonal, 'p' elsewhere. */
  function InitialCell(i: int, j: int): char {
    if i == j then DependencyGrid.DiagonalChar else DependencyGrid.PlaceholderChar
  }

  /**
   * The cell a decoded row of tracker `t` holds for the column of key
   * `c`: the row's character at c's position in t's key order, when the
   * row reaches that far and that position is before `bound`.
   */
  function ColumnCell(t: Tracker, c: string, row: string, bound: nat): (x: Option<char>)
    requires Valid(t.keys)
  {
    if c in t.keys.values && DependencyGrid.IndexOf(t.keys.order, c) < bound && DependencyGrid.IndexOf(t.keys.order, c) < |row|
    then Some(row[DependencyGrid.IndexOf(t.keys.order, c)])
    else None
  }

  /** What tracker `t`'s own grid says about row key `r` and column key `c`. */
  function Supplied(t: Tracker, r: string, c: string): (x: Option<char>)
    requires Valid(t.keys)
  {
    if r in t.grid.values then ColumnCell(t, c, DependencyGrid.Decode(t.grid.values[r]), |t.keys.order|) else None
  }

  /**
   * A cell of the merged grid: the primary's cell if it has one, else the
   * initial cell; a 'p' left there is replaced by the secondary's cell if
   * it has one.
   */
  function MergedCell(primary: Tracker, secondary: Tracker, keys: seq<string>, i: nat, j: nat): char
    requires Valid(primary.keys) && Valid(secondary.keys) && i < |keys| && j < |keys|
  {
    var b := match Supplied(primary, keys[i], keys[j]) case Some(x) => x case None => InitialCell(i, j);
    match Supplied(secondary, keys[i], keys[j])
    case Some(y) => if b == DependencyGrid.PlaceholderChar then y else b
    case None => b
  }

  /** Row i of the merged grid, uncompressed. */
  function MergedRow(primary: Tracker, secondary: Tracker, keys: seq<string>, i: nat): (row: string)
    requires Valid(primary.keys) && Valid(secondary.keys) && i < |keys|
    ensures |row| == |keys|
    ensures forall j :: 0 <= j < |keys| ==> row[j] == MergedCell(primary, secondary, keys, i, j)
  {
    seq(|keys|, j requires 0 <= j < |keys| => MergedCell(primary, secondary, keys, i, j))
  }

  /** A cell after the primary's rows in `done` have been copied. */
  function PrimaryStage(primary: Tracker, keys: seq<string>, done: seq<string>, i: nat, j: nat): char
    requires Valid(primary.keys) && i < |keys| && j < |keys|
  {
    var x := Supplied(primary, keys[i], keys[j]);
    if keys[i] in done && x.Some? then x.value else InitialCell(i, j)
  }

  /** A cell after the primary is copied and the secondary's rows in `done` have filled their 'p' cells. */
  function SecondaryStage(primary: Tracker, secondary: Tracker, keys: seq<string>, done: seq<string>, i: nat, j: nat): char
    requires Valid(primary.keys) && Valid(secondary.keys) && i < |keys| && j < |keys|
  {
    var b := PrimaryStage(primary, keys, primary.grid.order, i, j);
    var y := Supplied(secondary, keys[i], keys[j]);
    if keys[i] in done && b == DependencyGrid.PlaceholderChar && y.Some? then y.value else b
  }

  /**
   * One row copy: the zip of tracker `t`'s key order with the decoded
   * `row` writes each pair whose key is merged into row `ri` of the grid,
   * and with `onlyPlaceholders` only over a cell still holding 'p'.
   */
  method CopyRow(g: array2<char>, t: Tracker, keys: seq<string>, ri: nat, row: string, onlyPlaceholders: bool)
    requires Valid(t.keys) && Distinct(keys)
    requires g.Length0 == |keys| && g.Length1 == |keys| && ri < |keys|
    modifies g
    ensures forall i, j | 0 <= i < g.Length0 && 0 <= j < g.Length1 && i != ri :: g[i, j] == old(g[i, j])
    ensures forall j | 0 <= j < g.Length1 ::
              g[ri, j] == CellAfter(t, keys[j], row, |t.keys.order|, onlyPlaceholders, old(g[ri, j]))
  {
    ghost var before := seq(|keys|, j requires 0 <= j < |keys| reads g => g[ri, j]);
    var bound := if |t.keys.order| < |row| then |t.keys.order| else |row|;
    var c := 0;
    while c < bound
      invariant 0 <= c <= bound
      invariant forall i, j | 0 <= i < g.Length0 && 0 <= j < g.Length1 && i != ri :: g[i, j] == old(g[i, j])
      invariant forall j | 0 <= j < g.Length1 :: g[ri, j] == CellAfter(t, keys[j], row, c, onlyPlaceholders, before[j])
    {
      CopyColumn(g, t, keys, ri, row, c, onlyPlaceholders, before);
      c := c + 1;
    }
    ColumnsBeyond(t, keys, row, bound, onlyPlaceholders);
  }

  /** One step of the zip: column `c` of `row` is written when its key is merged (and, with `onlyPlaceholders`, over 'p'). */
  method CopyColumn(g: array2<char>, t: Tracker, keys: seq<string>, ri: nat, row: string, c: nat,
                    onlyPlaceholders: bool, ghost before: seq<char>)
    requires Valid(t.keys) && Distinct(keys)
    requires g.Length0 == |keys| && g.Length1 == |keys| && ri < |keys| && |before| == |keys|
    requires c < |t.keys.order| && c < |row|
    requires forall j | 0 <= j < g.Length1 :: g[ri, j] == CellAfter(t, keys[j], row, c, onlyPlaceholders, before[j])
    modifies g
    ensures forall i, j | 0 <= i < g.Length0 && 0 <= j < g.Length1 && i != ri :: g[i, j] == old(g[i, j])
    ensures forall j | 0 <= j < g.Length1 :: g[ri, j] == CellAfter(t, keys[j], row, c + 1, onlyPlaceholders, before[j])
  {
    var colKey := t.keys.order[c];
    ColumnStep(t, keys, row, c);
    if colKey in keys {
      var ci := DependencyGrid.IndexOf(keys, colKey);
      if !onlyPlaceholders || g[ri, ci] == DependencyGrid.PlaceholderChar {
        g[ri, ci] := row[c];
      }
    }
  }

  /** The cell of column key `key` once the row's first `c` columns have been copied over `before`. */
  function CellAfter(t: Tracker, key: string, row: string, c: nat, onlyPlaceholders: bool, before: char): char
    requires Valid(t.keys)
  {
    var x := ColumnCell(t, key, row, c);
    if x.Some? && (!onlyPlaceholders || before == DependencyGrid.PlaceholderChar) then x.value else before
  }

  /** The columns past the end of the zip add nothing. */
  lemma ColumnsBeyond(t: Tracker, keys: seq<string>, row: string, bound: nat, onlyPlaceholders: bool)
    requires Valid(t.keys)
    requires bound == if |t.keys.order| < |row| then |t.keys.order| else |row|
    ensures forall j, before | 0 <= j < |keys| ::
              CellAfter(t, keys[j], row, |t.keys.order|, onlyPlaceholders, before)
              == CellAfter(t, keys[j], row, bound, onlyPlaceholders, before)
  {
  }

  /** Going one column further along the zip adds exactly the column of key number `c`. */
  lemma ColumnStep(t: Tracker, keys: seq<string>, row: string, c: nat)
    requires Valid(t.keys) && c < |t.keys.order| && c < |row|
    ensures DependencyGrid.IndexOf(t.keys.order, t.keys.order[c]) == c
    ensures forall j | 0 <= j < |keys| && keys[j] != t.keys.order[c] :: ColumnCell(t, keys[j], row, c + 1) == ColumnCell(t, keys[j], row, c)
    ensures forall j | 0 <= j < |keys| && keys[j] == t.keys.order[c] :: ColumnCell(t, keys[j], row, c + 1) == Some(row[c]) && ColumnCell(t, keys[j], row, c).None?
  {
  }

  /**
   * merge_trackers with the merged grid held as an n×n array of cells,
   * which is what its loops evidently intend.  The result's keys are the
   * merged keys, its rows the compressed merged rows in the merged key
   * order, and its edit markers the primary's.
   */
  method MergeTrackers(primary: Tracker, secondary: Tracker) returns (r: Result<Tracker>)
    requires WellFormed(primary) && WellFormed(secondary)
    ensures r.Err? <==> DependencyGrid.CreateInitialGrid(MergedKeys(primary, secondary).order).Err?
    ensures r.Err? ==> r.error.ValueError?
    ensures r.Ok? ==> r.value.keys == MergedKeys(primary, secondary)
    ensures r.Ok? ==> r.value.grid.order == r.value.keys.order && r.value.grid.values.Keys == r.value.keys.values.Keys
    ensures r.Ok? ==> forall i | 0 <= i < |r.value.keys.order| ::
                        r.value.grid.values[r.value.keys.order[i]] == DependencyGrid.Compress(MergedRow(primary, secondary, r.value.keys.order, i))
    ensures r.Ok? ==> r.value.lastKeyEdit == primary.lastKeyEdit && r.value.lastGridEdit == primary.lastGridEdit
  {
    var merged := MergedKeys(primary, secondary);
    var keys := merged.order;
    var initial := DependencyGrid.CreateInitialGrid(keys);
    if initial.Err? {
      return Err(initial.error);
    }
    var rows := MergeGrid(primary, secondary, keys);
    return Ok(TrackerIO.Tracker(merged, Dict(keys, rows), primary.lastKeyEdit, primary.lastGridEdit));
  }

  /** The grid part of the merge, on the merged key list. */
  method MergeGrid(primary: Tracker, secondary: Tracker, keys: seq<string>) returns (rows: map<string, string>)
    requires WellFormed(primary) && WellFormed(secondary) && Distinct(keys)
    ensures rows.Keys == set k | k in keys
    ensures forall i | 0 <= i < |keys| :: rows[keys[i]] == DependencyGrid.Compress(MergedRow(primary, secondary, keys, i))
  {
    var n := |keys|;
    var g := new char[n, n]((i, j) => InitialCell(i, j));
    CopyPrimary(g, primary, keys);
    FillSecondary(g, primary, secondary, keys);
    rows := CompressRows(g, primary, secondary, keys);
  }

  /** The first loop of the merge: each row of the primary copied over the initial grid. */
  method CopyPrimary(g: array2<char>, primary: Tracker, keys: seq<string>)
    requires WellFormed(primary) && Distinct(keys)
    requires g.Length0 == |keys| && g.Length1 == |keys|
    requires forall i, j | 0 <= i < |keys| && 0 <= j < |keys| :: g[i, j] == InitialCell(i, j)
    modifies g
    ensures forall i, j | 0 <= i < |keys| && 0 <= j < |keys| :: g[i, j] == PrimaryStage(primary, keys, primary.grid.order, i, j)
  {
    var n := |keys|;
    var a := 0;
    while a < |primary.grid.order|
      invariant 0 <= a <= |primary.grid.order|
      invariant forall i, j | 0 <= i < n && 0 <= j < n :: g[i, j] == PrimaryStage(primary, keys, primary.grid.order[..a], i, j)
    {
      var rowKey := primary.grid.order[a];
      PrimaryStep(primary, keys, a);
      if rowKey in keys {
        var ri := DependencyGrid.IndexOf(keys, rowKey);
        var row := DependencyGrid.Decompress(primary.grid.values[rowKey]);
        CopyRow(g, primary, keys, ri, row, false);
      }
      a := a + 1;
    }
    assert primary.grid.order[..a] == primary.grid.order;
  }

  /** The second loop of the merge: each row of the secondary filling the cells still 'p'. */
  method FillSecondary(g: array2<char>, primary: Tracker, secondary: Tracker, keys: seq<string>)
    requires WellFormed(primary) && WellFormed(secondary) && Distinct(keys)
    requires g.Length0 == |keys| && g.Length1 == |keys|
    requires forall i, j | 0 <= i < |keys| && 0 <= j < |keys| :: g[i, j] == PrimaryStage(primary, keys, primary.grid.order, i, j)
    modifies g
    ensures forall i, j | 0 <= i < |keys| && 0 <= j < |keys| :: g[i, j] == SecondaryStage(primary, secondary, keys, secondary.grid.order, i, j)
  {
    var n := |keys|;
    var b := 0;
    while b < |secondary.grid.order|
      invariant 0 <= b <= |secondary.grid.order|
      invariant forall i, j | 0 <= i < n && 0 <= j < n :: g[i, j] == SecondaryStage(primary, secondary, keys, secondary.grid.order[..b], i, j)
    {
      var rowKey := secondary.grid.order[b];
      SecondaryStep(primary, secondary, keys, b);
      if rowKey in keys {
        var ri := DependencyGrid.IndexOf(keys, rowKey);
        var row := DependencyGrid.Decompress(secondary.grid.values[rowKey]);
        CopyRow(g, secondary, keys, ri, row, true);
      }
      b := b + 1;
    }
    assert secondary.grid.order[..b] == secondary.grid.order;
  }

  /** `{key: compress(''.join(merged_grid[i])) for i, key in enumerate(merged_key_list)}`. */
  method CompressRows(g: array2<char>, primary: Tracker, secondary: Tracker, keys: seq<string>) returns (rows: map<string, string>)
    requires WellFormed(primary) && WellFormed(secondary) && Distinct(keys)
    requires g.Length0 == |keys| && g.Length1 == |keys|
    requires forall i, j | 0 <= i < |keys| && 0 <= j < |keys| :: g[i, j] == SecondaryStage(primary, secondary, keys, secondary.grid.order, i, j)
    ensures rows.Keys == set k | k in keys
    ensures forall i | 0 <= i < |keys| :: rows[keys[i]] == DependencyGrid.Compress(MergedRow(primary, secondary, keys, i))
  {
    var n := |keys|;
    ghost var vals := seq(n, m requires 0 <= m < n => DependencyGrid.Compress(MergedRow(primary, secondary, keys, m)));
    rows := map[];
    var i := 0;
    while i < n
      invariant 0 <= i <= n
      invariant rows.Keys == set k | k in keys[..i]
      invariant forall m | 0 <= m < i :: rows[keys[m]] == vals[m]
    {
      var line := ReadMergedRow(g, primary, secondary, keys, i);
      ghost var before := rows;
      rows := rows[keys[i] := DependencyGrid.Compress(line)];
      ExtendRows(before, rows, keys, i, i + 1, vals);
      i := i + 1;
    }
    assert keys[..i] == keys;
  }

  /** Entering the i-th key's row keeps the rows of the keys before it. */
  lemma ExtendRows(rows: map<string, string>, rows': map<string, string>, keys: seq<string>, i: nat, j: nat,
                   vals: seq<string>)
    requires Distinct(keys) && i < |keys| && j == i + 1 && |vals| == |keys|
    requires rows.Keys == set k | k in keys[..i]
    requires forall m | 0 <= m < i :: rows[keys[m]] == vals[m]
    requires rows' == rows[keys[i] := vals[i]]
    ensures rows'.Keys == set k | k in keys[..j]
    ensures forall m | 0 <= m < j :: rows'[keys[m]] == vals[m]
  {
    assert forall m | 0 <= m < i :: keys[m] != keys[i];
    assert keys[..j] == keys[..i] + [keys[i]];
  }

  /** `''.join(merged_grid[i])`: row `i` of the filled grid. */
  method ReadMergedRow(g: array2<char>, primary: Tracker, secondary: Tracker, keys: seq<string>, i: nat)
    returns (line: string)
    requires WellFormed(primary) && WellFormed(secondary) && i < |keys|
    requires g.Length0 == |keys| && g.Length1 == |keys|
    requires forall i, j | 0 <= i < |keys| && 0 <= j < |keys| :: g[i, j] == SecondaryStage(primary, secondary, keys, secondary.grid.order, i, j)
    ensures line == MergedRow(primary, secondary, keys, i)
  {
    var n := |keys|;
    line := seq(n, j requires 0 <= j < n reads g => g[i, j]);
    FinalCells(primary, secondary, keys, i);
  }

  /** Copying the primary's row number `a` changes the stage only in that row's cells. */
  lemma PrimaryStep(primary: Tracker, keys: seq<string>, a: nat)
    requires WellFormed(primary) && Distinct(keys) && a < |primary.grid.order|
    ensures forall i, j | 0 <= i < |keys| && 0 <= j < |keys| && keys[i] != primary.grid.order[a] ::
              PrimaryStage(primary, keys, primary.grid.order[..a + 1], i, j) == PrimaryStage(primary, keys, primary.grid.order[..a], i, j)
    ensures primary.grid.order[a] in keys ==>
              var ri := DependencyGrid.IndexOf(keys, primary.grid.order[a]);
              forall j | 0 <= j < |keys| ::
                PrimaryStage(primary, keys, primary.grid.order[..a], ri, j) == InitialCell(ri, j)
                && PrimaryStage(primary, keys, primary.grid.order[..a + 1], ri, j)
                   == var x := ColumnCell(primary, keys[j], DependencyGrid.Decode(primary.grid.values[primary.grid.order[a]]), |primary.keys.order|);
                      if x.Some? then x.value else InitialCell(ri, j)
  {
    var done := primary.grid.order;
    assert done[..a + 1] == done[..a] + [done[a]];
    assert done[a] !in done[..a];
  }

  /** Filling from the secondary's row number `b` changes the stage only in that row's cells. */
  lemma SecondaryStep(primary: Tracker, secondary: Tracker, keys: seq<string>, b: nat)
    requires WellFormed(primary) && WellFormed(secondary) && Distinct(keys) && b < |secondary.grid.order|
    ensures forall i, j | 0 <= i < |keys| && 0 <= j < |keys| && keys[i] != secondary.grid.order[b] ::
              SecondaryStage(primary, secondary, keys, secondary.grid.order[..b + 1], i, j)
              == SecondaryStage(primary, secondary, keys, secondary.grid.order[..b], i, j)
    ensures secondary.grid.order[b] in keys ==>
              var ri := DependencyGrid.IndexOf(keys, secondary.grid.order[b]);
              forall j | 0 <= j < |keys| ::
                SecondaryStage(primary, secondary, keys, secondary.grid.order[..b], ri, j) == PrimaryStage(primary, keys, primary.grid.order, ri, j)
                && SecondaryStage(primary, secondary, keys, secondary.grid.order[..b + 1], ri, j)
                   == var base := PrimaryStage(primary, keys, primary.grid.order, ri, j);
                      var x := ColumnCell(secondary, keys[j], DependencyGrid.Decode(secondary.grid.values[secondary.grid.order[b]]), |secondary.keys.order|);
                      if x.Some? && base == DependencyGrid.PlaceholderChar then x.value else base
  {
    var done := secondary.grid.order;
    assert done[..b + 1] == done[..b] + [done[b]];
    assert done[b] !in done[..b];
  }

  /** Once both trackers are copied, every stage cell is the merged cell. */
  lemma FinalCells(primary: Tracker, secondary: Tracker, keys: seq<string>, i: nat)
    requires WellFormed(primary) && WellFormed(secondary) && i < |keys|
    ensures forall j | 0 <= j < |keys| ::
              SecondaryStage(primary, secondary, keys, secondary.grid.order, i, j) == MergedCell(primary, secondary, keys, i, j)
  {
  }

  // ---------------------------------------------------------------------
  // What the merged grid holds

  /** No decoded row of the tracker holds a digit, as for rows of dependency characters. */
  predicate DigitFreeRows(t: Tracker) {
    forall k | k in t.grid.values :: !HasDigit(DependencyGrid.Decode(t.grid.values[k]))
  }

  /** A merged row built from digit-free rows is digit-free too. */
  lemma MergedRowDigitFree(primary: Tracker, secondary: Tracker, keys: seq<string>, i: nat)
    requires WellFormed(primary) && WellFormed(secondary) && i < |keys|
    requires DigitFreeRows(primary) && DigitFreeRows(secondary)
    ensures !HasDigit(MergedRow(primary, secondary, keys, i))
  {
    var row := MergedRow(primary, secondary, keys, i);
    forall j | 0 <= j < |keys| ensures !IsDigit(row[j]) {
      var x := Supplied(primary, keys[i], keys[j]);
      var y := Supplied(secondary, keys[i], keys[j]);
      if x.Some? {
        var d := DependencyGrid.Decode(primary.grid.values[keys[i]]);
        assert x.value == d[DependencyGrid.IndexOf(primary.keys.order, keys[j])];
      }
      if y.Some? {
        var d := DependencyGrid.Decode(secondary.grid.values[keys[i]]);
        assert y.value == d[DependencyGrid.IndexOf(secondary.keys.order, keys[j])];
      }
    }
  }

  /**
   * Reading a cell of a merged row back: the primary's cell wins unless it
   * is 'p'; the secondary's cell fills a 'p' left by the primary or by
   * the initial grid; with neither, the initial 'o' diagonal and 'p'
   * elsewhere remain.
   */
  lemma MergedCellRead(primary: Tracker, secondary: Tracker, keys: seq<string>, i: nat, j: nat)
    requires WellFormed(primary) && WellFormed(secondary) && i < |keys| && j < |keys|
    requires DigitFreeRows(primary) && DigitFreeRows(secondary)
    ensures |DependencyGrid.Decode(DependencyGrid.Compress(MergedRow(primary, secondary, keys, i)))| == |keys|
    ensures var cell := DependencyGrid.Decode(DependencyGrid.Compress(MergedRow(primary, secondary, keys, i)))[j];
            var x := Supplied(primary, keys[i], keys[j]);
            var y := Supplied(secondary, keys[i], keys[j]);
            (x.Some? && x.value != DependencyGrid.PlaceholderChar ==> cell == x.value)
            && (x == Some(DependencyGrid.PlaceholderChar) && y.Some? ==> cell == y.value)
            && (x.None? && i != j && y.Some? ==> cell == y.value)
            && (x.None? && i == j ==> cell == DependencyGrid.DiagonalChar)
            && (x.None? && y.None? ==> cell == InitialCell(i, j))
  {
    MergedRowDigitFree(primary, secondary, keys, i);
    DependencyGrid.CompressRoundTrip(MergedRow(primary, secondary, keys, i));
  }

  /**
   * Merging with an empty secondary tracker keeps the primary's grid: on
   * the primary's own key order, a row of full length comes out as it
   * went in.
   */
  lemma MergeWithEmpty(primary: Tracker, secondary: Tracker, i: nat)
    requires WellFormed(primary) && WellFormed(secondary)
    requires secondary.keys.order == [] && secondary.grid.values == map[]
    requires i < |primary.keys.order| && primary.keys.order[i] in primary.grid.values
    requires |DependencyGrid.Decode(primary.grid.values[primary.keys.order[i]])| == |primary.keys.order|
    ensures MergedKeys(primary, secondary).order == primary.keys.order
    ensures MergedRow(primary, secondary, primary.keys.order, i) == DependencyGrid.Decode(primary.grid.values[primary.keys.order[i]])
  {
    EmptyMergeKeys(primary, secondary);
    EmptyMergeCells(primary, secondary, i);
  }

  lemma EmptyMergeCells(primary: Tracker, secondary: Tracker, i: nat)
    requires WellFormed(primary) && WellFormed(secondary) && secondary.grid.values == map[]
    requires i < |primary.keys.order| && primary.keys.order[i] in primary.grid.values
    requires |DependencyGrid.Decode(primary.grid.values[primary.keys.order[i]])| == |primary.keys.order|
    ensures forall j | 0 <= j < |primary.keys.order| ::
              MergedCell(primary, secondary, primary.keys.order, i, j) == DependencyGrid.Decode(primary.grid.values[primary.keys.order[i]])[j]
  {
    forall j | 0 <= j < |primary.keys.order|
      ensures MergedCell(primary, secondary, primary.keys.order, i, j) == DependencyGrid.Decode(primary.grid.values[primary.keys.order[i]])[j]
    {
      EmptyMergeCell(primary, secondary, i, j);
    }
  }

  lemma EmptyMergeKeys(primary: Tracker, secondary: Tracker)
    requires WellFormed(primary) && WellFormed(secondary) && secondary.keys.order == []
    ensures MergedKeys(primary, secondary).order == primary.keys.order
  {
    FreshAll(secondary.keys, primary.keys.order);
  }

  lemma EmptyMergeCell(primary: Tracker, secondary: Tracker, i: nat, j: nat)
    requires WellFormed(primary) && WellFormed(secondary) && secondary.grid.values == map[]
    requires i < |primary.keys.order| && j < |primary.keys.order| && primary.keys.order[i] in primary.grid.values
    requires |DependencyGrid.Decode(primary.grid.values[primary.keys.order[i]])| == |primary.keys.order|
    ensures MergedCell(primary, secondary, primary.keys.order, i, j) == DependencyGrid.Decode(primary.grid.values[primary.keys.order[i]])[j]
  {
    var keys := primary.keys.order;
    assert DependencyGrid.IndexOf(keys, keys[j]) == j;
  }

  /** Against a dictionary with no keys, every key of the list is fresh. */
  lemma {:induction false} FreshAll(d: Dict<string>, ks: seq<string>)
    requires d.values == map[]
    ensures FreshKeys(d, ks) == ks
    decreases |ks|
  {
    if ks != [] {
      FreshAll(d, ks[1..]);
      assert ks == [ks[0]] + ks[1..];
    }
  }
}
