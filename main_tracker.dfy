// The main tracker records dependencies between module folders: its keys
// are the folders inside the code roots, and a folder depends on another
// when a file anywhere below the first has a file-level suggestion whose
// target lies below the second (or, with a file-to-module map, whose
// target's module is the second).  A key map is given as its items in the
// dictionary's insertion order.
module MainTracker {
  import opened Outcomes
  import opened Text
  import opened PathUtils
  import KeyManager
  import TrackerIO

  /** A dictionary from keys to paths, as its items in insertion order. */
  type Items = seq<(string, string)>

  /** A dependency on a key, with its dependency character. */
  type Edge = (string, char)

  const MainTrackerFile := "module_relationship_tracker.md"

  // ---------------------------------------------------------------------
  // Results gathered over a loop that may raise

  /**
   * The lists `f` gives for the elements of `xs`, joined in order, or the
   * first error: what a loop that appends to one list yields when any
   * step may raise.
   */
  function Concat<T, U>(xs: seq<T>, f: T -> Result<seq<U>>): Result<seq<U>>
    decreases |xs|
  {
    if xs == [] then Ok([])
    else
      match Concat(xs[..|xs| - 1], f)
      case Err(e) => Err(e)
      case Ok(acc) =>
        match f(xs[|xs| - 1])
        case Err(e) => Err(e)
        case Ok(ys) => Ok(acc + ys)
  }

  /** The loop fails exactly when one of its steps does, and with that step's error. */
  lemma {:induction false} ConcatErr<T, U>(xs: seq<T>, f: T -> Result<seq<U>>)
    ensures Concat(xs, f).Err? <==> exists i | 0 <= i < |xs| :: f(xs[i]).Err?
    ensures Concat(xs, f).Err? ==> exists i | 0 <= i < |xs| :: f(xs[i]) == Concat(xs, f)
    decreases |xs|
  {
    if xs != [] {
      var init := xs[..|xs| - 1];
      ConcatErr(init, f);
      assert forall i | 0 <= i < |init| :: init[i] == xs[i];
    }
  }

  /** A successful loop yields exactly what its steps yield. */
  lemma {:induction false} ConcatMembers<T, U>(xs: seq<T>, f: T -> Result<seq<U>>, u: U)
    requires Concat(xs, f).Ok?
    ensures u in Concat(xs, f).value <==> exists i | 0 <= i < |xs| :: f(xs[i]).Ok? && u in f(xs[i]).value
    decreases |xs|
  {
    if xs != [] {
      var init := xs[..|xs| - 1];
      ConcatMembers(init, f, u);
      assert forall i | 0 <= i < |init| :: init[i] == xs[i];
      if exists i | 0 <= i < |xs| :: f(xs[i]).Ok? && u in f(xs[i]).value {
        var i :| 0 <= i < |xs| && f(xs[i]).Ok? && u in f(xs[i]).value;
        if i < |init| {
          assert f(init[i]).Ok? && u in f(init[i]).value;
        }
      }
    }
  }

  /** When every step yields one element, the loop yields one per step, in order. */
  lemma {:induction false} ConcatSingles<T, U>(xs: seq<T>, f: T -> Result<seq<U>>)
    requires Concat(xs, f).Ok?
    requires forall i | 0 <= i < |xs| :: f(xs[i]).Ok? ==> |f(xs[i]).value| == 1
    ensures |Concat(xs, f).value| == |xs|
    ensures forall i | 0 <= i < |xs| :: f(xs[i]).Ok? && Concat(xs, f).value[i] == f(xs[i]).value[0]
    decreases |xs|
  {
    if xs != [] {
      var init := xs[..|xs| - 1];
      assert forall i | 0 <= i < |init| :: init[i] == xs[i];
      ConcatSingles(init, f);
    }
  }

  /** Once a prefix of the loop has failed, the whole loop fails the same way. */
  lemma {:induction false} ConcatSticks<T, U>(xs: seq<T>, k: nat, f: T -> Result<seq<U>>)
    requires k <= |xs| && Concat(xs[..k], f).Err?
    ensures Concat(xs, f) == Concat(xs[..k], f)
    decreases |xs|
  {
    if k < |xs| {
      var init := xs[..|xs| - 1];
      assert init[..k] == xs[..k];
      ConcatSticks(init, k, f);
    } else {
      assert xs[..k] == xs;
    }
  }

  /** One more step of the loop. */
  lemma ConcatSnoc<T, U>(xs: seq<T>, k: nat, f: T -> Result<seq<U>>)
    requires k < |xs|
    ensures Concat(xs[..k + 1], f) == match Concat(xs[..k], f)
      case Err(e) => Err(e)
      case Ok(acc) => (match f(xs[k]) case Err(e) => Err(e) case Ok(ys) => Ok(acc + ys))
  {
    assert xs[..k + 1][..k] == xs[..k];
  }

  // ---------------------------------------------------------------------
  // main_key_filter

  /** `any(is_subpath(p, root) for root in abs_code_roots)`, the roots joined to the project root and normalised. */
  predicate UnderSomeRoot(np: string, projectRoot: string, roots: seq<string>, cwd: string) {
    exists i | 0 <= i < |roots| :: IsSubpath(np, NormalizePath(Join2(projectRoot, roots[i]), cwd), cwd)
  }

  /** main_key_filter keeps an item whose normalised path is a directory strictly inside a code root. */
  predicate IsModuleFolder(item: (string, string), isDir: string -> bool, projectRoot: string, roots: seq<string>, cwd: string) {
    var np := NormalizePath(item.1, cwd);
    isDir(np) && UnderSomeRoot(np, projectRoot, roots, cwd)
  }

  /** The kept items, in the key map's order. */
  function ModuleFolders(items: Items, isDir: string -> bool, projectRoot: string, roots: seq<string>, cwd: string): Items
    decreases |items|
  {
    if items == [] then []
    else
      var last := items[|items| - 1];
      ModuleFolders(items[..|items| - 1], isDir, projectRoot, roots, cwd)
      + (if IsModuleFolder(last, isDir, projectRoot, roots, cwd) then [last] else [])
  }

  /** Exactly the folder items inside a code root are kept, each with its path unchanged. */
  lemma {:induction false} ModuleFoldersMembers(items: Items, isDir: string -> bool, projectRoot: string, roots: seq<string>,
                                                cwd: string, item: (string, string))
    ensures item in ModuleFolders(items, isDir, projectRoot, roots, cwd)
            <==> item in items && IsModuleFolder(item, isDir, projectRoot, roots, cwd)
    ensures |ModuleFolders(items, isDir, projectRoot, roots, cwd)| <= |items|
    decreases |items|
  {
    if items != [] {
      var init := items[..|items| - 1];
      ModuleFoldersMembers(init, isDir, projectRoot, roots, cwd, item);
      assert items == init + [items[|items| - 1]];
    }
  }

  /**
   * main_key_filter.  The configured code roots `roots` and the directory
   * test `isDir` (os.path.isdir) are parameters.
   */
  method MainKeyFilter(projectRoot: string, items: Items, roots: seq<string>, isDir: string -> bool, cwd: string)
    returns (filtered: Items)
    ensures filtered == ModuleFolders(items, isDir, projectRoot, roots, cwd)
  {
    filtered := [];
    var i := 0;
    while i < |items|
      invariant i <= |items|
      invariant filtered == ModuleFolders(items[..i], isDir, projectRoot, roots, cwd)
    {
      assert items[..i + 1][..i] == items[..i];
      var (key, path) := items[i];
      var normPath := NormalizePath(path, cwd);
      if isDir(normPath) && UnderSomeRoot(normPath, projectRoot, roots, cwd) {
        filtered := filtered + [(key, path)];
      }
      i := i + 1;
    }
    assert items[..i] == items;
  }

  // ---------------------------------------------------------------------
  // aggregate_dependencies

  /** `if file_to_module:` — given and not empty. */
  predicate UsesModules(fileToModule: Option<map<string, string>>) {
    fileToModule.Some? && fileToModule.value != map[]
  }

  /** A file lies strictly inside a folder, both normalised first. */
  predicate Inside(filePath: string, folderPath: string, cwd: string) {
    IsSubpath(NormalizePath(filePath, cwd), NormalizePath(folderPath, cwd), cwd)
  }

  /** The folders other than the source that hold the target file, each with the dependency character. */
  function HoldingFolders(sourceKey: string, targetPath: string, dep: char, folders: Items, cwd: string): (r: seq<Edge>)
    decreases |folders|
  {
    if folders == [] then []
    else
      var f := folders[|folders| - 1];
      HoldingFolders(sourceKey, targetPath, dep, folders[..|folders| - 1], cwd)
      + (if Inside(targetPath, f.1, cwd) && f.0 != sourceKey then [(f.0, dep)] else [])
  }

  /** The key of the target file's module, when it has a non-empty one that get_key_from_path finds. */
  function ModuleKey(targetPath: string, items: Items, fileToModule: map<string, string>, cwd: string): Option<string> {
    var m := if targetPath in fileToModule then fileToModule[targetPath] else "";
    if m == "" then None else KeyManager.FirstKeyWithPath(items, KeyManager.KeyPath(m, cwd))
  }

  /**
   * One suggestion (target, dep) of a file inside the source folder:
   * `key_map[target_key]` raises KeyError for an unknown target; then the
   * target's module folder, or every other kept folder holding the target.
   */
  function TargetEdges(sourceKey: string, s: Edge, items: Items, filtered: Items,
                       fileToModule: Option<map<string, string>>, cwd: string): Result<seq<Edge>>
  {
    var keyMap := KeyManager.MapOf(items);
    if s.0 !in keyMap then Err(KeyError(s.0))
    else if UsesModules(fileToModule) then
      match ModuleKey(keyMap[s.0], items, fileToModule.value, cwd)
      case Some(k) => Ok(if k != "" && k != sourceKey then [(k, s.1)] else [])
      case None => Ok([])
    else Ok(HoldingFolders(sourceKey, keyMap[s.0], s.1, filtered, cwd))
  }

  function TargetStep(sourceKey: string, items: Items, filtered: Items, fileToModule: Option<map<string, string>>,
                      cwd: string): Edge -> Result<seq<Edge>>
  {
    s => TargetEdges(sourceKey, s, items, filtered, fileToModule, cwd)
  }

  /** A file of the key map inside the source folder that has suggestions. */
  predicate Contributes(sourcePath: string, file: (string, string), suggestions: map<string, seq<Edge>>, cwd: string) {
    Inside(file.1, sourcePath, cwd) && file.0 in suggestions
  }

  /** What one file adds to the source folder's list. */
  function FileEdges(source: (string, string), file: (string, string), suggestions: map<string, seq<Edge>>,
                     items: Items, filtered: Items, fileToModule: Option<map<string, string>>, cwd: string): Result<seq<Edge>>
  {
    if Contributes(source.1, file, suggestions, cwd)
    then Concat(suggestions[file.0], TargetStep(source.0, items, filtered, fileToModule, cwd))
    else Ok([])
  }

  function FileStep(source: (string, string), suggestions: map<string, seq<Edge>>, items: Items, filtered: Items,
                    fileToModule: Option<map<string, string>>, cwd: string): ((string, string)) -> Result<seq<Edge>>
  {
    file => FileEdges(source, file, suggestions, items, filtered, fileToModule, cwd)
  }

  /** The source folder's entry: its key and the list gathered over every file of the key map. */
  function FolderEntry(source: (string, string), suggestions: map<string, seq<Edge>>, items: Items, filtered: Items,
                       fileToModule: Option<map<string, string>>, cwd: string): Result<seq<(string, seq<Edge>)>>
  {
    match Concat(items, FileStep(source, suggestions, items, filtered, fileToModule, cwd))
    case Err(e) => Err(e)
    case Ok(es) => Ok([(source.0, es)])
  }

  function FolderStep(suggestions: map<string, seq<Edge>>, items: Items, filtered: Items,
                      fileToModule: Option<map<string, string>>, cwd: string): ((string, string)) -> Result<seq<(string, seq<Edge>)>>
  {
    source => FolderEntry(source, suggestions, items, filtered, fileToModule, cwd)
  }

  /** aggregate_dependencies: one entry per kept folder, in order, or the KeyError of an unknown target. */
  function Aggregated(items: Items, suggestions: map<string, seq<Edge>>, filtered: Items,
                      fileToModule: Option<map<string, string>>, cwd: string): Result<seq<(string, seq<Edge>)>>
  {
    Concat(filtered, FolderStep(suggestions, items, filtered, fileToModule, cwd))
  }

  /** The loop over the kept folders that hold the target (lines 54-58). */
  method AddHoldingFolders(sourceKey: string, targetPath: string, dep: char, filtered: Items, cwd: string)
    returns (es: seq<Edge>)
    ensures es == HoldingFolders(sourceKey, targetPath, dep, filtered, cwd)
  {
    es := [];
    var i := 0;
    while i < |filtered|
      invariant i <= |filtered|
      invariant es == HoldingFolders(sourceKey, targetPath, dep, filtered[..i], cwd)
    {
      assert filtered[..i + 1][..i] == filtered[..i];
      var (folderKey, folderPath) := filtered[i];
      if Inside(targetPath, folderPath, cwd) && folderKey != sourceKey {
        es := es + [(folderKey, dep)];
      }
      i := i + 1;
    }
    assert filtered[..i] == filtered;
  }

  /** The loop over one file's suggestions (lines 43-58). */
  method AddSuggestions(sourceKey: string, ss: seq<Edge>, items: Items, filtered: Items,
                        fileToModule: Option<map<string, string>>, cwd: string) returns (r: Result<seq<Edge>>)
    ensures r == Concat(ss, TargetStep(sourceKey, items, filtered, fileToModule, cwd))
  {
    ghost var f := TargetStep(sourceKey, items, filtered, fileToModule, cwd);
    var keyMap := KeyManager.MapOf(items);
    var es: seq<Edge> := [];
    var i := 0;
    while i < |ss|
      invariant i <= |ss|
      invariant Concat(ss[..i], f) == Ok(es)
    {
      ConcatSnoc(ss, i, f);
      var (targetKey, dep) := ss[i];
      if targetKey !in keyMap {
        ConcatSticks(ss, i + 1, f);
        return Err(KeyError(targetKey));
      }
      var step := TargetFolders(sourceKey, ss[i], keyMap, items, filtered, fileToModule, cwd);
      assert f(ss[i]) == Ok(step);
      es := es + step;
      i := i + 1;
    }
    assert ss[..i] == ss;
    return Ok(es);
  }

  /** The folders one suggestion of a known target leads to (lines 44-58). */
  method TargetFolders(sourceKey: string, s: Edge, keyMap: map<string, string>, items: Items, filtered: Items,
                       fileToModule: Option<map<string, string>>, cwd: string) returns (step: seq<Edge>)
    requires keyMap == KeyManager.MapOf(items) && s.0 in keyMap
    ensures TargetEdges(sourceKey, s, items, filtered, fileToModule, cwd) == Ok(step)
  {
    var (targetKey, dep) := s;
    step := [];
    if UsesModules(fileToModule) {
      var targetModule := if keyMap[targetKey] in fileToModule.value then fileToModule.value[keyMap[targetKey]] else "";
      if targetModule != "" {
        var targetFolderKey := KeyManager.GetKeyFromPath(targetModule, items, cwd);
        if targetFolderKey.Some? && targetFolderKey.value != "" && targetFolderKey.value != sourceKey {
          step := [(targetFolderKey.value, dep)];
        }
      }
    } else {
      step := AddHoldingFolders(sourceKey, keyMap[targetKey], dep, filtered, cwd);
    }
  }

  /** The loop over the key map's files for one source folder (lines 37-58). */
  method AddFiles(source: (string, string), suggestions: map<string, seq<Edge>>, items: Items, filtered: Items,
                  fileToModule: Option<map<string, string>>, cwd: string) returns (r: Result<seq<Edge>>)
    ensures r == Concat(items, FileStep(source, suggestions, items, filtered, fileToModule, cwd))
  {
    ghost var f := FileStep(source, suggestions, items, filtered, fileToModule, cwd);
    var es: seq<Edge> := [];
    var i := 0;
    while i < |items|
      invariant i <= |items|
      invariant Concat(items[..i], f) == Ok(es)
    {
      ConcatSnoc(items, i, f);
      var (fileKey, filePath) := items[i];
      assert f(items[i]) == FileEdges(source, items[i], suggestions, items, filtered, fileToModule, cwd);
      if Inside(filePath, source.1, cwd) && fileKey in suggestions {
        var added := AddSuggestions(source.0, suggestions[fileKey], items, filtered, fileToModule, cwd);
        if added.Err? {
          ConcatSticks(items, i + 1, f);
          return Err(added.error);
        }
        es := es + added.value;
      } else {
        assert es + [] == es;
      }
      i := i + 1;
    }
    assert items[..i] == items;
    return Ok(es);
  }

  /**
   * aggregate_dependencies: `suggestions` maps a file key to its list of
   * (target key, character); the file-to-module map is optional.
   */
  method AggregateDependencies(items: Items, suggestions: map<string, seq<Edge>>, filtered: Items,
                               fileToModule: Option<map<string, string>>, cwd: string)
    returns (r: Result<seq<(string, seq<Edge>)>>)
    ensures r == Aggregated(items, suggestions, filtered, fileToModule, cwd)
  {
    ghost var f := FolderStep(suggestions, items, filtered, fileToModule, cwd);
    var entries: seq<(string, seq<Edge>)> := [];
    var i := 0;
    while i < |filtered|
      invariant i <= |filtered|
      invariant Concat(filtered[..i], f) == Ok(entries)
    {
      ConcatSnoc(filtered, i, f);
      var source := filtered[i];
      var es := AddFiles(source, suggestions, items, filtered, fileToModule, cwd);
      if es.Err? {
        ConcatSticks(filtered, i + 1, f);
        return Err(es.error);
      }
      entries := entries + [(source.0, es.value)];
      i := i + 1;
    }
    assert filtered[..i] == filtered;
    return Ok(entries);
  }

  // ---------------------------------------------------------------------
  // What aggregation promises

  /**
   * The suggestion target `t` of a file inside the source folder yields an
   * edge to `k`: `k` is the key of the target's module (with the module
   * map), or a kept folder holding the target (without it); never the
   * source itself.
   */
  predicate Yields(sourceKey: string, t: string, k: string, items: Items, filtered: Items,
                   fileToModule: Option<map<string, string>>, cwd: string)
    requires t in KeyManager.MapOf(items)
  {
    var targetPath := KeyManager.MapOf(items)[t];
    k != sourceKey
    && if UsesModules(fileToModule) then k != "" && ModuleKey(targetPath, items, fileToModule.value, cwd) == Some(k)
       else exists j | 0 <= j < |filtered| :: filtered[j].0 == k && Inside(targetPath, filtered[j].1, cwd)
  }

  lemma {:induction false} HoldingFoldersMembers(sourceKey: string, targetPath: string, dep: char, folders: Items,
                                                 cwd: string, e: Edge)
    ensures e in HoldingFolders(sourceKey, targetPath, dep, folders, cwd)
            <==> e.1 == dep && e.0 != sourceKey
                 && exists j | 0 <= j < |folders| :: folders[j].0 == e.0 && Inside(targetPath, folders[j].1, cwd)
    decreases |folders|
  {
    if folders != [] {
      var init := folders[..|folders| - 1];
      HoldingFoldersMembers(sourceKey, targetPath, dep, init, cwd, e);
      if exists j | 0 <= j < |folders| :: folders[j].0 == e.0 && Inside(targetPath, folders[j].1, cwd) {
        var j :| 0 <= j < |folders| && folders[j].0 == e.0 && Inside(targetPath, folders[j].1, cwd);
        if j < |init| {
          assert init[j] == folders[j];
        }
      }
      if exists j | 0 <= j < |init| :: init[j].0 == e.0 && Inside(targetPath, init[j].1, cwd) {
        var j :| 0 <= j < |init| && init[j].0 == e.0 && Inside(targetPath, init[j].1, cwd);
        assert folders[j] == init[j];
      }
    }
  }

  /** One suggestion's edges: each carries the suggestion's character and goes where `Yields` says. */
  lemma TargetEdgesMembers(sourceKey: string, s: Edge, items: Items, filtered: Items,
                           fileToModule: Option<map<string, string>>, cwd: string, e: Edge)
    ensures TargetEdges(sourceKey, s, items, filtered, fileToModule, cwd).Err? <==> s.0 !in KeyManager.MapOf(items)
    ensures TargetEdges(sourceKey, s, items, filtered, fileToModule, cwd).Ok? ==>
      (e in TargetEdges(sourceKey, s, items, filtered, fileToModule, cwd).value
       <==> e.1 == s.1 && Yields(sourceKey, s.0, e.0, items, filtered, fileToModule, cwd))
  {
    var keyMap := KeyManager.MapOf(items);
    if s.0 in keyMap && !UsesModules(fileToModule) {
      HoldingFoldersMembers(sourceKey, keyMap[s.0], s.1, filtered, cwd, e);
    }
  }

  /** The edge e comes from suggestion s of a file inside the source folder. */
  predicate Suggestion(s: Edge, e: Edge, sourceKey: string, items: Items, filtered: Items,
                       fileToModule: Option<map<string, string>>, cwd: string)
  {
    s.0 in KeyManager.MapOf(items) && e.1 == s.1 && Yields(sourceKey, s.0, e.0, items, filtered, fileToModule, cwd)
  }

  /** The file lies inside the source folder and one of its suggestions yields e. */
  predicate FileYields(source: (string, string), file: (string, string), e: Edge, suggestions: map<string, seq<Edge>>,
                       items: Items, filtered: Items, fileToModule: Option<map<string, string>>, cwd: string)
  {
    Contributes(source.1, file, suggestions, cwd)
    && exists q | 0 <= q < |suggestions[file.0]| :: Suggestion(suggestions[file.0][q], e, source.0, items, filtered, fileToModule, cwd)
  }

  /** The file lies inside the source folder and one of its suggestions names no key. */
  predicate FileFails(sourcePath: string, file: (string, string), suggestions: map<string, seq<Edge>>, items: Items, cwd: string) {
    Contributes(sourcePath, file, suggestions, cwd)
    && exists q | 0 <= q < |suggestions[file.0]| :: suggestions[file.0][q].0 !in KeyManager.MapOf(items)
  }

  /** Some file of the key map yields e for the source folder. */
  predicate Derived(source: (string, string), e: Edge, suggestions: map<string, seq<Edge>>, items: Items, filtered: Items,
                    fileToModule: Option<map<string, string>>, cwd: string)
  {
    exists i | 0 <= i < |items| :: FileYields(source, items[i], e, suggestions, items, filtered, fileToModule, cwd)
  }

  /** Some file inside the source folder has a suggestion whose target is not a key. */
  predicate UnknownTarget(source: (string, string), suggestions: map<string, seq<Edge>>, items: Items, cwd: string) {
    exists i | 0 <= i < |items| :: FileFails(source.1, items[i], suggestions, items, cwd)
  }

  /** One file's contribution: an error for an unknown target, else exactly the edges its suggestions yield. */
  lemma FileEdgesMembers(source: (string, string), file: (string, string), suggestions: map<string, seq<Edge>>,
                         items: Items, filtered: Items, fileToModule: Option<map<string, string>>, cwd: string, e: Edge)
    ensures FileEdges(source, file, suggestions, items, filtered, fileToModule, cwd).Err?
            <==> FileFails(source.1, file, suggestions, items, cwd)
    ensures FileEdges(source, file, suggestions, items, filtered, fileToModule, cwd).Ok? ==>
      (e in FileEdges(source, file, suggestions, items, filtered, fileToModule, cwd).value
       <==> FileYields(source, file, e, suggestions, items, filtered, fileToModule, cwd))
  {
    if Contributes(source.1, file, suggestions, cwd) {
      var ss := suggestions[file.0];
      var f := TargetStep(source.0, items, filtered, fileToModule, cwd);
      ConcatErr(ss, f);
      forall q | 0 <= q < |ss|
        ensures f(ss[q]).Err? <==> ss[q].0 !in KeyManager.MapOf(items)
        ensures f(ss[q]).Ok? ==> (e in f(ss[q]).value <==> Suggestion(ss[q], e, source.0, items, filtered, fileToModule, cwd))
      {
        TargetEdgesMembers(source.0, ss[q], items, filtered, fileToModule, cwd, e);
      }
      if Concat(ss, f).Ok? {
        ConcatMembers(ss, f, e);
      }
    }
  }

  /** A source folder's list: an error for an unknown target, else exactly the derived edges. */
  lemma FolderEntryMembers(source: (string, string), suggestions: map<string, seq<Edge>>, items: Items, filtered: Items,
                           fileToModule: Option<map<string, string>>, cwd: string, e: Edge)
    ensures FolderEntry(source, suggestions, items, filtered, fileToModule, cwd).Err?
            <==> UnknownTarget(source, suggestions, items, cwd)
    ensures FolderEntry(source, suggestions, items, filtered, fileToModule, cwd).Ok? ==>
      var entry := FolderEntry(source, suggestions, items, filtered, fileToModule, cwd).value;
      |entry| == 1 && entry[0].0 == source.0
      && (e in entry[0].1 <==> Derived(source, e, suggestions, items, filtered, fileToModule, cwd))
  {
    var f := FileStep(source, suggestions, items, filtered, fileToModule, cwd);
    ConcatErr(items, f);
    forall i | 0 <= i < |items|
      ensures f(items[i]).Err? <==> FileFails(source.1, items[i], suggestions, items, cwd)
      ensures f(items[i]).Ok? ==> (e in f(items[i]).value <==> FileYields(source, items[i], e, suggestions, items, filtered, fileToModule, cwd))
    {
      FileEdgesMembers(source, items[i], suggestions, items, filtered, fileToModule, cwd, e);
    }
    if Concat(items, f).Ok? {
      ConcatMembers(items, f, e);
    }
  }

  /**
   * aggregate_dependencies fails exactly when a file inside a kept folder
   * has a suggestion whose target is not a key; otherwise every kept
   * folder has an entry, in order.
   */
  lemma AggregatedShape(items: Items, suggestions: map<string, seq<Edge>>, filtered: Items,
                        fileToModule: Option<map<string, string>>, cwd: string)
    ensures Aggregated(items, suggestions, filtered, fileToModule, cwd).Err?
            <==> exists j | 0 <= j < |filtered| :: UnknownTarget(filtered[j], suggestions, items, cwd)
    ensures Aggregated(items, suggestions, filtered, fileToModule, cwd).Ok? ==>
      var r := Aggregated(items, suggestions, filtered, fileToModule, cwd).value;
      |r| == |filtered|
      && (forall j | 0 <= j < |filtered| ::
            FolderEntry(filtered[j], suggestions, items, filtered, fileToModule, cwd) == Ok([r[j]])
            && r[j].0 == filtered[j].0)
  {
    var f := FolderStep(suggestions, items, filtered, fileToModule, cwd);
    ConcatErr(filtered, f);
    forall j | 0 <= j < |filtered|
      ensures f(filtered[j]).Err? <==> UnknownTarget(filtered[j], suggestions, items, cwd)
      ensures f(filtered[j]).Ok? ==> |f(filtered[j]).value| == 1 && f(filtered[j]).value[0].0 == filtered[j].0
    {
      FolderEntryMembers(filtered[j], suggestions, items, filtered, fileToModule, cwd, ("", ' '));
    }
    if Concat(filtered, f).Ok? {
      ConcatSingles(filtered, f);
    }
  }

  /**
   * Each kept folder's list holds exactly the edges derived from the
   * files inside it, and never one to the folder itself.
   */
  lemma AggregatedEdges(items: Items, suggestions: map<string, seq<Edge>>, filtered: Items,
                        fileToModule: Option<map<string, string>>, cwd: string, j: nat, e: Edge)
    requires Aggregated(items, suggestions, filtered, fileToModule, cwd).Ok? && j < |filtered|
    ensures var r := Aggregated(items, suggestions, filtered, fileToModule, cwd).value;
      j < |r| && r[j].0 == filtered[j].0
      && (e in r[j].1 <==> Derived(filtered[j], e, suggestions, items, filtered, fileToModule, cwd))
      && (e in r[j].1 ==> e.0 != filtered[j].0)
  {
    AggregatedShape(items, suggestions, filtered, fileToModule, cwd);
    var source := filtered[j];
    FolderEntryMembers(source, suggestions, items, filtered, fileToModule, cwd, e);
    if Derived(source, e, suggestions, items, filtered, fileToModule, cwd) {
      var i :| 0 <= i < |items| && FileYields(source, items[i], e, suggestions, items, filtered, fileToModule, cwd);
      var q :| 0 <= q < |suggestions[items[i].0]|
               && Suggestion(suggestions[items[i].0][q], e, source.0, items, filtered, fileToModule, cwd);
    }
  }

  // ---------------------------------------------------------------------
  // get_main_tracker_path

  lemma MainTrackerFilePlain()
    ensures PlainName(MainTrackerFile)
  {
  }

  /**
   * get_main_tracker_path: `memoryDir` is what get_path("memory_dir")
   * returns, joined to the project root and normalised, then the file name.
   */
  function MainTrackerPath(projectRoot: string, memoryDir: string, cwd: string): (r: string)
    ensures IsAbs(cwd) && Join2(projectRoot, memoryDir) != [] ==>
              var dir := JoinPaths(projectRoot, [memoryDir], cwd);
              IsAbs(dir) && NormalizePath(dir, cwd) == dir
              && TrackerIO.InDirectory(r, dir, MainTrackerFile)
              && NormalizePath(r, cwd) == r
  {
    MainTrackerFilePlain();
    JoinedFile(projectRoot, memoryDir, MainTrackerFile, cwd);
    TrackerIO.JoinInDirectory(JoinPaths(projectRoot, [memoryDir], cwd), MainTrackerFile);
    JoinPaths(JoinPaths(projectRoot, [memoryDir], cwd), [MainTrackerFile], cwd)
  }

  /**
   * get_path hands back an absolute path, so the project root plays no
   * part: a memory directory /x/y gives /x/y/module_relationship_tracker.md.
   */
  lemma MainTrackerPathShape(projectRoot: string, x: string, y: string, cwd: string)
    requires PlainName(x) && PlainName(y)
    ensures MainTrackerPath(projectRoot, "/" + x + "/" + y, cwd) == "/" + x + "/" + y + "/" + MainTrackerFile
  {
    var dir := "/" + x + "/" + y;
    NormOfShapeExample(x, y);
    assert JoinAll(projectRoot, [dir]) == dir;
    assert JoinPaths(projectRoot, [dir], cwd) == dir;
    assert NoChar(MainTrackerFile, Sep);
    NormOfShapeExample3(x, y, MainTrackerFile);
    assert JoinAll(dir, [MainTrackerFile]) == dir + "/" + MainTrackerFile;
  }
}
