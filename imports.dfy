// How the dependency suggester turns a Python import into tracked files:
// the leading dots of an import are its relative level, a relative import
// climbs from the importing file's directory and never above the project
// root, an absolute import is looked up under the project root and under
// each code root, and only candidates that are tracked files count.  A
// dotted name used in the code resolves through the file's import map by
// its longest imported prefix.
module PythonImports {
  import opened Outcomes
  import opened Text
  import opened PathUtils
  import opened Sequences

  // ---------------------------------------------------------------------
  // os.path.dirname

  /** `s` with its trailing separators removed. */
  function RStripSep(s: string): (r: string)
    ensures |r| <= |s| && r == s[..|r|]
    ensures r == [] || r[|r| - 1] != Sep
    decreases |s|
  {
    if s != [] && s[|s| - 1] == Sep then RStripSep(s[..|s| - 1]) else s
  }

  /**
   * os.path.dirname: everything up to the last separator, with the
   * trailing separators dropped unless that leaves nothing but the root.
   */
  function Dirname(p: string): (r: string)
    ensures |r| <= |p| && r == p[..|r|]
  {
    var head := p[..RFind(p, Sep) + 1];
    if head != [] && head != Repeat(Sep, |head|) then RStripSep(head) else head
  }

  // ---------------------------------------------------------------------
  // _convert_python_import_to_paths

  /**
   * The directory a relative import starts from: `steps` parents above
   * `base`, or None once a parent is empty, is its own parent, or lies
   * outside the project root.
   */
  function Climb(base: string, steps: nat, root: string): Option<string>
    decreases steps
  {
    if steps == 0 then Some(base)
    else
      match Climb(base, steps - 1, root)
      case None => None
      case Some(cur) =>
        var parent := Dirname(cur);
        if parent == [] || parent == cur || (!StartsWith(parent, root) && parent != root) then None
        else Some(parent)
  }

  /** A climb that gets anywhere stays inside the project root and only ever shortens the path. */
  lemma {:induction false} ClimbInRoot(base: string, steps: nat, root: string)
    requires Climb(base, steps, root).Some?
    ensures var d := Climb(base, steps, root).value;
      |d| <= |base| && d == base[..|d|] && (steps > 0 ==> StartsWith(d, root) && |d| < |base|)
    decreases steps
  {
    if steps > 0 {
      ClimbInRoot(base, steps - 1, root);
      var cur := Climb(base, steps - 1, root).value;
      var parent := Dirname(cur);
      assert parent == cur[..|parent|];
    }
  }

  /** A module name as a relative file path: `a.b` is `a/b`. */
  function ModuleRelPath(name: string): string {
    ReplaceChar(name, '.', Sep)
  }

  /** The two files a module base path may name: `base.py` and `base/__init__.py`. */
  function ModuleFiles(base: string, cwd: string): seq<string> {
    [base + ".py", NormalizePath(Join2(base, "__init__.py"), cwd)]
  }

  /**
   * The candidates of an absolute import: under the project root, then
   * under each code root not already named by the import's first part.
   */
  function RootCandidates(name: string, normRoot: string, codeRoots: seq<string>, cwd: string): seq<string>
    decreases |codeRoots|
  {
    if codeRoots == [] then ModuleFiles(NormalizePath(Join2(normRoot, ModuleRelPath(name)), cwd), cwd)
    else
      var cr := codeRoots[|codeRoots| - 1];
      RootCandidates(name, normRoot, codeRoots[..|codeRoots| - 1], cwd)
      + (if StartsWith(name, cr + ".") then []
         else
           var absCodeRoot := NormalizePath(Join2(normRoot, cr), cwd);
           ModuleFiles(NormalizePath(Join2(absCodeRoot, ModuleRelPath(name)), cwd), cwd))
  }

  /** The candidates of a relative import from the directory its climb reached, if any. */
  function RelativeCandidates(name: string, base: Option<string>, cwd: string): seq<string> {
    if base.Some? && base.value != [] then ModuleFiles(NormalizePath(Join2(base.value, ModuleRelPath(name)), cwd), cwd)
    else []
  }

  /** The candidate files of an import of `name` at `level` from `sourceDir`, in the order they are tried. */
  function Candidates(name: string, sourceDir: string, projectRoot: string, codeRoots: seq<string>, level: nat, cwd: string)
    : seq<string>
  {
    var normRoot := NormalizePath(projectRoot, cwd);
    if level > 0 then RelativeCandidates(name, Climb(NormalizePath(sourceDir, cwd), level - 1, normRoot), cwd)
    else if name != [] then Dedup(RootCandidates(name, normRoot, codeRoots, cwd))
    else []
  }

  /**
   * The tracked candidates, each once; an absolute import stops at the
   * first.  The symbol check that an imported item is defined is not
   * part of this model: the suggester asks for none.
   */
  function Resolved(cands: seq<string>, tracked: set<string>, level: nat): seq<string> {
    var hits := Select(cands, p => p in tracked);
    if level == 0 && |hits| > 1 then hits[..1] else hits
  }

  /** A relative import yields every tracked candidate once; an absolute one at most one, and one exactly when a candidate is tracked. */
  lemma ResolvedMeaning(cands: seq<string>, tracked: set<string>, level: nat)
    ensures NoRepeats(Resolved(cands, tracked, level))
    ensures forall p | p in Resolved(cands, tracked, level) :: p in cands && p in tracked
    ensures level > 0 ==> forall p | p in cands && p in tracked :: p in Resolved(cands, tracked, level)
    ensures level == 0 ==> |Resolved(cands, tracked, level)| <= 1
    ensures Resolved(cands, tracked, level) == [] <==> forall p | p in cands :: p !in tracked
  {
    var hits := Select(cands, p => p in tracked);
    SelectMembers(cands, p => p in tracked);
    if hits != [] {
      assert hits[0] in hits;
    }
  }

  /** The climb of a relative import: `for _ in range(level - 1)`, stopping when a parent does not qualify. */
  method ClimbParents(base: string, steps: nat, root: string) returns (r: Option<string>)
    ensures r == Climb(base, steps, root)
  {
    r := Some(base);
    var k := 0;
    while k < steps
      invariant k <= steps && r.Some?
      invariant r == Climb(base, k, root)
    {
      var cur := r.value;
      var parent := Dirname(cur);
      if parent == [] || parent == cur || (!StartsWith(parent, root) && parent != root) {
        ClimbStaysNone(base, k + 1, steps, root);
        return None;
      }
      r := Some(parent);
      k := k + 1;
    }
  }

  /** The candidates of an absolute import, before de-duplication. */
  method AbsoluteCandidates(name: string, normRoot: string, codeRoots: seq<string>, cwd: string) returns (cands: seq<string>)
    ensures cands == RootCandidates(name, normRoot, codeRoots, cwd)
  {
    var fs := ModuleRelPath(name);
    var b := NormalizePath(Join2(normRoot, fs), cwd);
    cands := [b + ".py", NormalizePath(Join2(b, "__init__.py"), cwd)];
    var i := 0;
    while i < |codeRoots|
      invariant i <= |codeRoots|
      invariant cands == RootCandidates(name, normRoot, codeRoots[..i], cwd)
    {
      assert codeRoots[..i + 1][..i] == codeRoots[..i];
      var cr := codeRoots[i];
      var absCodeRoot := NormalizePath(Join2(normRoot, cr), cwd);
      if !StartsWith(name, cr + ".") {
        var bc := NormalizePath(Join2(absCodeRoot, fs), cwd);
        cands := cands + [bc + ".py", NormalizePath(Join2(bc, "__init__.py"), cwd)];
      }
      i := i + 1;
    }
    assert codeRoots[..i] == codeRoots;
  }

  /** The check of the candidates against the tracked files, each once; an absolute import returns at the first. */
  method CheckCandidates(cands: seq<string>, tracked: set<string>, level: nat) returns (paths: seq<string>)
    ensures paths == Resolved(cands, tracked, level)
  {
    ghost var keep := (p: string) => p in tracked;
    paths := [];
    var seen: set<string> := {};
    var i := 0;
    while i < |cands|
      invariant i <= |cands|
      invariant paths == Select(cands[..i], keep) && seen == set p | p in paths
      invariant level == 0 ==> paths == []
    {
      SelectSnoc(cands, i, keep);
      var p := cands[i];
      if p in tracked && p !in seen {
        paths := paths + [p];
        seen := seen + {p};
        if level == 0 {
          SelectPrefix(cands, i + 1, keep);
          return;
        }
      }
      i := i + 1;
    }
    assert cands[..i] == cands;
  }

  /**
   * _convert_python_import_to_paths with no item to check.  The
   * configured code roots `codeRoots` are a parameter.
   */
  method ConvertPythonImport(name: string, sourceDir: string, projectRoot: string, tracked: set<string>,
                             codeRoots: seq<string>, level: nat, cwd: string) returns (paths: seq<string>)
    ensures paths == Resolved(Candidates(name, sourceDir, projectRoot, codeRoots, level, cwd), tracked, level)
  {
    var cands := CandidatesFor(name, sourceDir, projectRoot, codeRoots, level, cwd);
    paths := CheckCandidates(cands, tracked, level);
  }

  /** The candidate generation of _convert_python_import_to_paths. */
  method CandidatesFor(name: string, sourceDir: string, projectRoot: string, codeRoots: seq<string>, level: nat, cwd: string)
    returns (cands: seq<string>)
    ensures cands == Candidates(name, sourceDir, projectRoot, codeRoots, level, cwd)
  {
    var normRoot := NormalizePath(projectRoot, cwd);
    cands := [];
    if level > 0 {
      cands := RelativeFrom(name, NormalizePath(sourceDir, cwd), normRoot, level, cwd);
    } else if name != [] {
      cands := AbsoluteCandidates(name, normRoot, codeRoots, cwd);
      cands := Dedup(cands);
    }
    CandidatesCases(name, sourceDir, projectRoot, codeRoots, level, cwd);
  }

  /** The candidates of a relative import: climb, then the two module files below the directory reached. */
  method RelativeFrom(name: string, sourceDir: string, normRoot: string, level: nat, cwd: string) returns (cands: seq<string>)
    requires level > 0
    ensures cands == RelativeCandidates(name, Climb(sourceDir, level - 1, normRoot), cwd)
  {
    var base := ClimbParents(sourceDir, level - 1, normRoot);
    assert base == Climb(sourceDir, level - 1, normRoot);
    cands := ModuleCandidatesIn(name, base, cwd);
  }

  /** The two module files of `name` below the directory a relative import climbed to, if it reached one. */
  method ModuleCandidatesIn(name: string, base: Option<string>, cwd: string) returns (cands: seq<string>)
    ensures cands == RelativeCandidates(name, base, cwd)
  {
    if base.Some? && base.value != [] {
      var b := NormalizePath(Join2(base.value, ModuleRelPath(name)), cwd);
      cands := [b + ".py", NormalizePath(Join2(b, "__init__.py"), cwd)];
    } else {
      cands := [];
    }
  }

  lemma CandidatesCases(name: string, sourceDir: string, projectRoot: string, codeRoots: seq<string>, level: nat, cwd: string)
    ensures var normRoot := NormalizePath(projectRoot, cwd);
      Candidates(name, sourceDir, projectRoot, codeRoots, level, cwd)
      == if level > 0 then RelativeCandidates(name, Climb(NormalizePath(sourceDir, cwd), level - 1, normRoot), cwd)
         else if name != [] then Dedup(RootCandidates(name, normRoot, codeRoots, cwd))
         else []
  {
  }

  lemma {:induction false} ClimbStaysNone(base: string, k: nat, n: nat, root: string)
    requires k <= n && Climb(base, k, root).None?
    ensures Climb(base, n, root).None?
    decreases n - k
  {
    if k < n {
      ClimbStaysNone(base, k + 1, n, root);
    }
  }

  // ---------------------------------------------------------------------
  // _identify_python_dependencies

  /** The number of leading dots of an import: its relative level. */
  function LeadingDots(s: string): (n: nat)
    ensures n <= |s| && s[..n] == Repeat('.', n) && (n < |s| ==> s[n] != '.')
    decreases |s|
  {
    if s != [] && s[0] == '.' then
      var n := 1 + LeadingDots(s[1..]);
      assert s[..n] == ['.'] + s[1..][..n - 1];
      n
    else 0
  }

  /** The first resolution that is a tracked file other than the source. */
  function FirstUsable(resolved: seq<string>, tracked: set<string>, sourcePath: string): (r: Option<string>)
    ensures r.Some? ==> r.value in resolved && r.value in tracked && r.value != sourcePath
    ensures r.None? ==> forall p | p in resolved :: p !in tracked || p == sourcePath
    decreases |resolved|
  {
    if resolved == [] then None
    else if resolved[0] in tracked && resolved[0] != sourcePath then Some(resolved[0])
    else FirstUsable(resolved[1..], tracked, sourcePath)
  }

  /** The file one import in `sourcePath` depends on, if any. */
  function ImportTarget(imp: string, sourcePath: string, projectRoot: string, tracked: set<string>,
                        codeRoots: seq<string>, cwd: string): Option<string>
  {
    var level := LeadingDots(imp);
    var cands := Candidates(imp[level..], Dirname(sourcePath), projectRoot, codeRoots, level, cwd);
    FirstUsable(Resolved(cands, tracked, level), tracked, sourcePath)
  }

  /** The target of each import, in import order. */
  function ImportTargets(imports: seq<string>, sourcePath: string, projectRoot: string, tracked: set<string>,
                         codeRoots: seq<string>, cwd: string): (ts: seq<Option<string>>)
    ensures |ts| == |imports|
    ensures forall i | 0 <= i < |imports| :: ts[i] == ImportTarget(imports[i], sourcePath, projectRoot, tracked, codeRoots, cwd)
  {
    seq(|imports|, i requires 0 <= i < |imports| => ImportTarget(imports[i], sourcePath, projectRoot, tracked, codeRoots, cwd))
  }

  /** A `<` edge per resolved import, in import order. */
  function EdgesOf(ts: seq<Option<string>>): seq<(string, char)>
    decreases |ts|
  {
    if ts == [] then []
    else
      EdgesOf(ts[..|ts| - 1]) + match ts[|ts| - 1] case Some(p) => [(p, '<')] case None => []
  }

  /** The AST-verified links: each resolved import's target with the import's text. */
  function LinksOf(ts: seq<Option<string>>, imports: seq<string>): seq<(string, string)>
    requires |ts| == |imports|
    decreases |ts|
  {
    if ts == [] then []
    else
      var n := |ts| - 1;
      LinksOf(ts[..n], imports[..n]) + match ts[n] case Some(p) => [(p, imports[n])] case None => []
  }

  /** An edge is found exactly when some import resolves to its target. */
  lemma {:induction false} EdgesOfMembers(ts: seq<Option<string>>, e: (string, char))
    ensures e in EdgesOf(ts) <==> e.1 == '<' && Some(e.0) in ts
    ensures |EdgesOf(ts)| <= |ts|
    decreases |ts|
  {
    if ts != [] {
      var init := ts[..|ts| - 1];
      EdgesOfMembers(init, e);
      assert ts == init + [ts[|ts| - 1]];
    }
  }

  /** The edges of `_identify_python_dependencies`, each once. */
  function PythonDeps(imports: seq<string>, sourcePath: string, projectRoot: string, tracked: set<string>,
                      codeRoots: seq<string>, cwd: string): seq<(string, char)>
  {
    Dedup(EdgesOf(ImportTargets(imports, sourcePath, projectRoot, tracked, codeRoots, cwd)))
  }

  /**
   * An edge is suggested exactly when some import resolves to its target;
   * every edge is a `<` to a tracked file other than the source, each once.
   */
  lemma PythonDepsMembers(imports: seq<string>, sourcePath: string, projectRoot: string, tracked: set<string>,
                          codeRoots: seq<string>, cwd: string, e: (string, char))
    ensures e in PythonDeps(imports, sourcePath, projectRoot, tracked, codeRoots, cwd)
            <==> e.1 == '<' && exists i | 0 <= i < |imports|
                   :: ImportTarget(imports[i], sourcePath, projectRoot, tracked, codeRoots, cwd) == Some(e.0)
    ensures e in PythonDeps(imports, sourcePath, projectRoot, tracked, codeRoots, cwd)
            ==> e.0 in tracked && e.0 != sourcePath
    ensures NoRepeats(PythonDeps(imports, sourcePath, projectRoot, tracked, codeRoots, cwd))
  {
    var ts := ImportTargets(imports, sourcePath, projectRoot, tracked, codeRoots, cwd);
    DedupMembers(EdgesOf(ts));
    EdgesOfMembers(ts, e);
    if Some(e.0) in ts {
      var i :| 0 <= i < |ts| && ts[i] == Some(e.0);
      assert ImportTarget(imports[i], sourcePath, projectRoot, tracked, codeRoots, cwd) == Some(e.0);
    }
  }

  /**
   * _identify_python_dependencies: each import contributes one `<` edge,
   * to its first tracked resolution other than the source, and the edges
   * come back each once.  The configured code roots are a parameter.
   */
  method IdentifyPythonDependencies(sourcePath: string, imports: seq<string>, projectRoot: string, tracked: set<string>,
                                    codeRoots: seq<string>, cwd: string)
    returns (deps: seq<(string, char)>, links: seq<(string, string)>)
    ensures deps == PythonDeps(imports, sourcePath, projectRoot, tracked, codeRoots, cwd)
    ensures links == LinksOf(ImportTargets(imports, sourcePath, projectRoot, tracked, codeRoots, cwd), imports)
  {
    ghost var ts := ImportTargets(imports, sourcePath, projectRoot, tracked, codeRoots, cwd);
    var edges: seq<(string, char)> := [];
    links := [];
    var sourceDir := Dirname(sourcePath);
    var i := 0;
    while i < |imports|
      invariant i <= |imports|
      invariant edges == EdgesOf(ts[..i])
      invariant links == LinksOf(ts[..i], imports[..i])
    {
      var imp := imports[i];
      var target := ResolveImport(imp, sourceDir, sourcePath, projectRoot, tracked, codeRoots, cwd);
      ghost var before, linksBefore := edges, links;
      if target.Some? {
        edges := edges + [(target.value, '<')];
        links := links + [(target.value, imp)];
      }
      TargetStep(ts, imports, i, target, before, linksBefore, edges, links);
      i := i + 1;
    }
    assert ts[..i] == ts;
    assert imports[..i] == imports;
    deps := Dedup(edges);
  }

  /** One step of the loop above: the edge and link of import `i`, if it resolved. */
  lemma TargetStep(ts: seq<Option<string>>, imports: seq<string>, i: nat, target: Option<string>,
                   edges: seq<(string, char)>, links: seq<(string, string)>,
                   edges': seq<(string, char)>, links': seq<(string, string)>)
    requires |ts| == |imports| && i < |ts| && target == ts[i]
    requires edges == EdgesOf(ts[..i]) && links == LinksOf(ts[..i], imports[..i])
    requires edges' == if target.Some? then edges + [(target.value, '<')] else edges
    requires links' == if target.Some? then links + [(target.value, imports[i])] else links
    ensures edges' == EdgesOf(ts[..i + 1]) && links' == LinksOf(ts[..i + 1], imports[..i + 1])
  {
    assert ts[..i + 1][..i] == ts[..i];
    assert imports[..i + 1][..i] == imports[..i];
  }

  /** One import of the loop above: its level, its resolutions, and the first usable one. */
  method ResolveImport(imp: string, sourceDir: string, sourcePath: string, projectRoot: string, tracked: set<string>,
                       codeRoots: seq<string>, cwd: string) returns (target: Option<string>)
    requires sourceDir == Dirname(sourcePath)
    ensures target == ImportTarget(imp, sourcePath, projectRoot, tracked, codeRoots, cwd)
  {
    var level := LeadingDots(imp);
    var resolved := ConvertPythonImport(imp[level..], sourceDir, projectRoot, tracked, codeRoots, level, cwd);
    assert resolved == Resolved(Candidates(imp[level..], Dirname(sourcePath), projectRoot, codeRoots, level, cwd), tracked, level);
    target := FindUsable(resolved, tracked, sourcePath);
  }

  /** The inner loop over the resolutions, stopping at the first usable one. */
  method FindUsable(resolved: seq<string>, tracked: set<string>, sourcePath: string) returns (r: Option<string>)
    ensures r == FirstUsable(resolved, tracked, sourcePath)
  {
    var i := 0;
    while i < |resolved|
      invariant i <= |resolved|
      invariant FirstUsable(resolved[i..], tracked, sourcePath) == FirstUsable(resolved, tracked, sourcePath)
    {
      if resolved[i] in tracked && resolved[i] != sourcePath {
        return Some(resolved[i]);
      }
      assert resolved[i..][1..] == resolved[i + 1..];
      i := i + 1;
    }
    return None;
  }

  // ---------------------------------------------------------------------
  // _resolve_name_to_path

  /** A prefix counts when the import map gives it a non-empty path that is tracked. */
  predicate Qualifies(prefix: string, importMap: map<string, string>, tracked: set<string>) {
    prefix in importMap && importMap[prefix] != [] && importMap[prefix] in tracked
  }

  /** The dotted prefix of the first `i` parts. */
  function Prefix(parts: seq<string>, i: nat): string
    requires i <= |parts|
  {
    Join(".", parts[..i])
  }

  /** The path of the longest qualifying prefix among the first `i` parts' prefixes. */
  function LongestFrom(parts: seq<string>, i: nat, importMap: map<string, string>, tracked: set<string>): Option<string>
    requires i <= |parts|
    decreases i
  {
    if i == 0 then None
    else if Qualifies(Prefix(parts, i), importMap, tracked) then Some(importMap[Prefix(parts, i)])
    else LongestFrom(parts, i - 1, importMap, tracked)
  }

  /** The module a dotted name comes from, through the file's import map. */
  function ResolveName(name: string, importMap: map<string, string>, tracked: set<string>): Option<string> {
    if name == [] then None
    else
      var parts := Split(name, ".");
      LongestFrom(parts, |parts|, importMap, tracked)
  }

  /**
   * The result is the path of a qualifying prefix with no longer one
   * qualifying, and None only when no prefix qualifies.
   */
  lemma {:induction false} LongestFromMeaning(parts: seq<string>, i: nat, importMap: map<string, string>, tracked: set<string>)
    requires i <= |parts|
    ensures LongestFrom(parts, i, importMap, tracked).None?
            <==> forall j | 1 <= j <= i :: !Qualifies(Prefix(parts, j), importMap, tracked)
    ensures LongestFrom(parts, i, importMap, tracked).Some? ==>
            exists j | 1 <= j <= i :: Qualifies(Prefix(parts, j), importMap, tracked)
              && LongestFrom(parts, i, importMap, tracked).value == importMap[Prefix(parts, j)]
              && forall m | j < m <= i :: !Qualifies(Prefix(parts, m), importMap, tracked)
    decreases i
  {
    if i > 0 {
      LongestFromMeaning(parts, i - 1, importMap, tracked);
    }
  }

  lemma ResolveNameMeaning(name: string, importMap: map<string, string>, tracked: set<string>)
    requires name != []
    ensures var parts := Split(name, ".");
      (ResolveName(name, importMap, tracked).None?
       <==> forall j | 1 <= j <= |parts| :: !Qualifies(Prefix(parts, j), importMap, tracked))
      && (ResolveName(name, importMap, tracked).Some? ==>
          exists j | 1 <= j <= |parts| :: Qualifies(Prefix(parts, j), importMap, tracked)
            && ResolveName(name, importMap, tracked).value == importMap[Prefix(parts, j)]
            && forall m | j < m <= |parts| :: !Qualifies(Prefix(parts, m), importMap, tracked))
  {
    var parts := Split(name, ".");
    LongestFromMeaning(parts, |parts|, importMap, tracked);
  }

  /** A resolved name always names a tracked file. */
  lemma ResolveNameTracked(name: string, importMap: map<string, string>, tracked: set<string>)
    requires ResolveName(name, importMap, tracked).Some?
    ensures ResolveName(name, importMap, tracked).value in tracked
    ensures ResolveName(name, importMap, tracked).value != []
  {
    ResolveNameMeaning(name, importMap, tracked);
  }

  /**
   * _resolve_name_to_path: the prefixes are tried from the longest down,
   * stopping at the first whose import-map path is tracked.  The
   * per-source memo of earlier answers is not modelled.
   */
  method ResolveNameToPath(name: string, importMap: map<string, string>, tracked: set<string>) returns (r: Option<string>)
    ensures r == ResolveName(name, importMap, tracked)
  {
    if name == [] {
      return None;
    }
    var parts := Split(name, ".");
    r := None;
    var i := |parts|;
    while i > 0
      invariant 0 <= i <= |parts|
      invariant LongestFrom(parts, i, importMap, tracked) == LongestFrom(parts, |parts|, importMap, tracked)
    {
      var prefix := Join(".", parts[..i]);
      if prefix in importMap && importMap[prefix] != [] {
        if importMap[prefix] in tracked {
          r := Some(importMap[prefix]);
          return;
        }
      }
      i := i - 1;
    }
  }
}
