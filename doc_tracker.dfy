// The doc tracker records dependencies between documentation files: its
// keys are the items of the global key map whose paths lie strictly inside
// one of the configured documentation directories, each directory taken
// relative to the project root.  A key map is given as its items in the
// dictionary's insertion order.
module DocTracker {
  import opened Outcomes
  import opened Text
  import opened PathUtils
  import TrackerIO

  /** A dictionary from keys to paths, as its items in insertion order. */
  type Items = seq<(string, string)>

  const DocTrackerFile := "doc_tracker.md"

  // ---------------------------------------------------------------------
  // doc_file_inclusion_logic

  /** The normalised documentation directory `docDir`, taken relative to the project root. */
  function DocRoot(projectRoot: string, docDir: string, cwd: string): string {
    NormalizePath(Join2(projectRoot, docDir), cwd)
  }

  /** `is_subpath(norm_path, norm_doc_dir)` for one documentation directory. */
  predicate InDocDir(np: string, projectRoot: string, docDir: string, cwd: string) {
    IsSubpath(np, DocRoot(projectRoot, docDir, cwd), cwd)
  }

  /** A normalised path lies strictly inside at least one documentation directory. */
  predicate InSomeDocDir(np: string, projectRoot: string, docDirs: seq<string>, cwd: string) {
    exists j | 0 <= j < |docDirs| :: InDocDir(np, projectRoot, docDirs[j], cwd)
  }

  /** doc_file_inclusion_logic keeps an item whose normalised path is inside a documentation directory. */
  predicate IsDocFile(item: (string, string), projectRoot: string, docDirs: seq<string>, cwd: string) {
    InSomeDocDir(NormalizePath(item.1, cwd), projectRoot, docDirs, cwd)
  }

  /** The kept items, in the key map's order. */
  function DocFiles(items: Items, projectRoot: string, docDirs: seq<string>, cwd: string): Items
    decreases |items|
  {
    if items == [] then []
    else
      var last := items[|items| - 1];
      DocFiles(items[..|items| - 1], projectRoot, docDirs, cwd)
      + (if IsDocFile(last, projectRoot, docDirs, cwd) then [last] else [])
  }

  /** Exactly the items inside a documentation directory are kept, each with its path unchanged. */
  lemma {:induction false} DocFilesMembers(items: Items, projectRoot: string, docDirs: seq<string>, cwd: string,
                                           item: (string, string))
    ensures item in DocFiles(items, projectRoot, docDirs, cwd)
            <==> item in items && IsDocFile(item, projectRoot, docDirs, cwd)
    ensures |DocFiles(items, projectRoot, docDirs, cwd)| <= |items|
    decreases |items|
  {
    if items != [] {
      var init := items[..|items| - 1];
      DocFilesMembers(init, projectRoot, docDirs, cwd, item);
      assert items == init + [items[|items| - 1]];
    }
  }

  /**
   * A documentation directory does not include the item naming it: a path
   * is never strictly inside itself.  The directory must not end in a
   * separator, which excludes the file system root.
   */
  lemma DocDirOwnKeyExcluded(items: Items, projectRoot: string, docDir: string, cwd: string, item: (string, string))
    requires IsAbs(cwd)
    requires NormalizePath(item.1, cwd) == DocRoot(projectRoot, docDir, cwd)
    requires !EndsWith(DocRoot(projectRoot, docDir, cwd), [Sep])
    ensures item !in DocFiles(items, projectRoot, [docDir], cwd)
  {
    var root := DocRoot(projectRoot, docDir, cwd);
    NormalizeIdempotent(Join2(projectRoot, docDir), cwd);
    SubpathBoundary(root, root);
    assert !InDocDir(root, projectRoot, docDir, cwd);
    DocFilesMembers(items, projectRoot, [docDir], cwd, item);
  }

  /**
   * The inner loop of doc_file_inclusion_logic: the documentation
   * directories are tried in turn, stopping at the first that holds `path`.
   */
  method FindDocDir(path: string, projectRoot: string, docDirs: seq<string>, cwd: string) returns (found: bool)
    ensures found == InSomeDocDir(NormalizePath(path, cwd), projectRoot, docDirs, cwd)
  {
    found := false;
    ghost var np := NormalizePath(path, cwd);
    var k := 0;
    while k < |docDirs|
      invariant k <= |docDirs|
      invariant !InSomeDocDir(np, projectRoot, docDirs[..k], cwd)
    {
      InSomeDocDirSnoc(np, projectRoot, docDirs, k, cwd);
      var normPath := NormalizePath(path, cwd);
      var normDocDir := DocRoot(projectRoot, docDirs[k], cwd);
      if IsSubpath(normPath, normDocDir, cwd) {
        found := true;
        break;
      }
      k := k + 1;
    }
    if found {
      InSomeDocDirPrefix(np, projectRoot, docDirs, k + 1, cwd);
    } else {
      assert docDirs[..k] == docDirs;
    }
  }

  lemma InSomeDocDirSnoc(np: string, projectRoot: string, docDirs: seq<string>, k: nat, cwd: string)
    requires k < |docDirs|
    ensures InSomeDocDir(np, projectRoot, docDirs[..k + 1], cwd)
            <==> InSomeDocDir(np, projectRoot, docDirs[..k], cwd) || InDocDir(np, projectRoot, docDirs[k], cwd)
  {
    var pre, pre' := docDirs[..k], docDirs[..k + 1];
    assert pre'[k] == docDirs[k];
    if InSomeDocDir(np, projectRoot, pre', cwd) {
      var j :| 0 <= j < k + 1 && InDocDir(np, projectRoot, pre'[j], cwd);
      if j < k {
        assert pre[j] == pre'[j];
      }
    }
    if InSomeDocDir(np, projectRoot, pre, cwd) {
      var j :| 0 <= j < k && InDocDir(np, projectRoot, pre[j], cwd);
      assert pre'[j] == pre[j];
    }
  }

  lemma InSomeDocDirPrefix(np: string, projectRoot: string, docDirs: seq<string>, k: nat, cwd: string)
    requires k <= |docDirs| && InSomeDocDir(np, projectRoot, docDirs[..k], cwd)
    ensures InSomeDocDir(np, projectRoot, docDirs, cwd)
  {
    var j :| 0 <= j < k && InDocDir(np, projectRoot, docDirs[..k][j], cwd);
    assert docDirs[..k][j] == docDirs[j];
  }

  /**
   * doc_file_inclusion_logic: each item is admitted by the first
   * documentation directory that holds its path's normal form.  The
   * configured directories `docDirs` are a parameter.
   */
  method DocFileInclusion(projectRoot: string, items: Items, docDirs: seq<string>, cwd: string)
    returns (filtered: Items)
    ensures filtered == DocFiles(items, projectRoot, docDirs, cwd)
  {
    filtered := [];
    var i := 0;
    while i < |items|
      invariant i <= |items|
      invariant filtered == DocFiles(items[..i], projectRoot, docDirs, cwd)
    {
      assert items[..i + 1][..i] == items[..i];
      var (key, path) := items[i];
      var found := FindDocDir(path, projectRoot, docDirs, cwd);
      if found {
        filtered := filtered + [(key, path)];
      }
      i := i + 1;
    }
    assert items[..i] == items;
  }

  // ---------------------------------------------------------------------
  // get_doc_tracker_path

  lemma DocTrackerFilePlain()
    ensures PlainName(DocTrackerFile)
  {
  }

  /** The doc tracker file in the memory directory; `memoryDir` is the configured path. */
  function DocTrackerPath(projectRoot: string, memoryDir: string, cwd: string): (r: string)
    ensures IsAbs(cwd) && Join2(projectRoot, memoryDir) != [] ==>
              var dir := JoinPaths(projectRoot, [memoryDir], cwd);
              IsAbs(dir) && NormalizePath(dir, cwd) == dir
              && TrackerIO.InDirectory(r, dir, DocTrackerFile)
              && NormalizePath(r, cwd) == r
  {
    DocTrackerFilePlain();
    JoinedFile(projectRoot, memoryDir, DocTrackerFile, cwd);
    TrackerIO.JoinInDirectory(JoinPaths(projectRoot, [memoryDir], cwd), DocTrackerFile);
    JoinPaths(JoinPaths(projectRoot, [memoryDir], cwd), [DocTrackerFile], cwd)
  }

  /**
   * With an absolute memory directory /x/y the doc tracker is
   * /x/y/doc_tracker.md, whereas get_tracker_path's doc tracker in the same
   * directory would be /x/y/doctracker.md: the two places name different files.
   */
  lemma DocTrackerPathShape(projectRoot: string, projectDir: string, memoryDir: string, x: string, y: string, cwd: string)
    requires PlainName(x) && PlainName(y)
    ensures DocTrackerPath(projectRoot, "/" + x + "/" + y, cwd) == "/" + x + "/" + y + "/" + DocTrackerFile
    ensures TrackerIO.GetTrackerPath(projectDir, "doc", None, memoryDir, "/" + x + "/" + y, cwd)
            == Ok("/" + x + "/" + y + "/" + TrackerIO.DocTrackerName)
    ensures Ok(DocTrackerPath(projectRoot, "/" + x + "/" + y, cwd))
            != TrackerIO.GetTrackerPath(projectDir, "doc", None, memoryDir, "/" + x + "/" + y, cwd)
  {
    var dir := "/" + x + "/" + y;
    NormOfShapeExample(x, y);
    assert JoinAll(projectRoot, [dir]) == dir;
    assert JoinPaths(projectRoot, [dir], cwd) == dir;
    assert NoChar(DocTrackerFile, Sep);
    NormOfShapeExample3(x, y, DocTrackerFile);
    assert JoinAll(dir, [DocTrackerFile]) == dir + "/" + DocTrackerFile;
    var other := dir + "/" + TrackerIO.DocTrackerName;
    assert |other| < |dir + "/" + DocTrackerFile|;
  }
}
