// The dependency suggester's top level: the per-file-type dispatch, the
// semantic suggestions from similarity scores, and the combination of all
// suggestions for one file into at most one character per target, where a
// higher-priority character wins and an equal-priority `<` and `>` merge
// into `x`.  The character priorities, the similarity scores and the
// results of the analyses this model does not cover (the Python structural
// analysis and the JavaScript import resolution) are parameters.
module Suggester {
  import opened Outcomes
  import opened Text
  import opened PathUtils
  import opened Dicts
  import opened Sequences
  import opened KeyInfos
  import opened DocLinks
  import PythonImports

  // ---------------------------------------------------------------------
  // _combine_suggestions_path_based_with_char_priority

  /**
   * One suggestion met by the combine loop.  An empty target or the source
   * itself is skipped; a target not yet stored counts as priority -1; a
   * higher priority replaces the stored character, and an equal-priority
   * `<`/`>` pair becomes `x` (the guard that the stored character is not
   * already `x` always holds there, since it is `<` or `>`).
   */
  function CombineStep(d: Dict<char>, s: (string, char), source: string, priority: char -> int): (r: Dict<char>)
    requires Valid(d)
    ensures Valid(r)
  {
    var (target, c) := s;
    if target == [] || target == source then d
    else
      var current := if target in d.values then priority(d.values[target]) else -1;
      if priority(c) > current then Put(d, target, c)
      else if priority(c) == current && target in d.values && c != d.values[target] && {c, d.values[target]} == {'<', '>'} then
        Put(d, target, 'x')
      else d
  }

  /** The dictionary after the loop over `ss`. */
  function Combined(ss: seq<(string, char)>, source: string, priority: char -> int): (r: Dict<char>)
    ensures Valid(r)
    decreases |ss|
  {
    if ss == [] then Empty()
    else CombineStep(Combined(ss[..|ss| - 1], source, priority), ss[|ss| - 1], source, priority)
  }

  /** `list(combined_by_path.items())`. */
  function CombineSuggestions(ss: seq<(string, char)>, source: string, priority: char -> int): seq<(string, char)> {
    Items(Combined(ss, source, priority))
  }

  /** One pass of the combine loop. */
  method CombineOne(combined: Dict<char>, s: (string, char), source: string, priority: char -> int)
    returns (r: Dict<char>)
    requires Valid(combined)
    ensures r == CombineStep(combined, s, source, priority)
  {
    r := combined;
    var (target, c) := s;
    if target != [] && target != source {
      var current := if target in combined.values then priority(combined.values[target]) else -1;
      if priority(c) > current {
        r := Put(combined, target, c);
      } else if priority(c) == current && target in combined.values && c != combined.values[target] {
        if {c, combined.values[target]} == {'<', '>'} && combined.values[target] != 'x' {
          r := Put(combined, target, 'x');
        }
      }
    }
  }

  method CombinePathBased(ss: seq<(string, char)>, source: string, priority: char -> int)
    returns (r: seq<(string, char)>)
    ensures r == CombineSuggestions(ss, source, priority)
  {
    var combined: Dict<char> := Empty();
    var i := 0;
    while i < |ss|
      invariant i <= |ss|
      invariant combined == Combined(ss[..i], source, priority)
    {
      assert ss[..i + 1][..i] == ss[..i];
      combined := CombineOne(combined, ss[i], source, priority);
      i := i + 1;
    }
    assert ss[..i] == ss;
    r := Items(combined);
  }

  /** Whether `ss` suggests character `c` for `t`. */
  predicate Suggests(ss: seq<(string, char)>, t: string, c: char) {
    exists i | 0 <= i < |ss| :: ss[i] == (t, c)
  }

  /** A target proper to combine: not empty and not the source. */
  predicate Proper(t: string, source: string) { t != [] && t != source }

  /** A kept target is proper and suggested. */
  lemma {:induction false} CombinedProper(ss: seq<(string, char)>, source: string, priority: char -> int, t: string)
    ensures t in Combined(ss, source, priority).values ==> Proper(t, source) && exists i | 0 <= i < |ss| :: ss[i].0 == t
    decreases |ss|
  {
    if ss != [] {
      var init := ss[..|ss| - 1];
      CombinedProper(init, source, priority, t);
      if t in Combined(init, source, priority).values {
        var i :| 0 <= i < |init| && init[i].0 == t;
        assert ss[i] == init[i];
      }
    }
  }

  /** A kept character has a non-negative priority, given that `x` outranks an equal-priority `<`/`>` pair. */
  lemma {:induction false} CombinedPriority(ss: seq<(string, char)>, source: string, priority: char -> int, t: string)
    requires MergeOutranks(priority)
    ensures t in Combined(ss, source, priority).values ==> priority(Combined(ss, source, priority).values[t]) >= 0
    decreases |ss|
  {
    if ss != [] {
      var init := ss[..|ss| - 1];
      CombinedPriority(init, source, priority, t);
      var before := Combined(init, source, priority);
      var (last, c) := ss[|ss| - 1];
      if t in before.values && last == t && c != before.values[t] && {c, before.values[t]} == {'<', '>'} {
        assert c == '<' || c == '>';
        assert before.values[t] == '<' || before.values[t] == '>';
      }
    }
  }

  /** A proper target is kept whenever some suggestion of it has a non-negative priority. */
  lemma {:induction false} CombinedKept(ss: seq<(string, char)>, source: string, priority: char -> int, t: string)
    ensures Proper(t, source) && (exists i | 0 <= i < |ss| :: ss[i].0 == t && priority(ss[i].1) >= 0)
            ==> t in Combined(ss, source, priority).values
    decreases |ss|
  {
    if ss != [] && Proper(t, source) && exists i | 0 <= i < |ss| :: ss[i].0 == t && priority(ss[i].1) >= 0 {
      var init := ss[..|ss| - 1];
      var i :| 0 <= i < |ss| && ss[i].0 == t && priority(ss[i].1) >= 0;
      if i < |init| {
        assert init[i] == ss[i];
        CombinedKept(init, source, priority, t);
      }
    }
  }

  /**
   * The character kept for a target is one suggested for it, or `x` when
   * both `<` and `>` were suggested for it.
   */
  lemma {:induction false} CombinedChar(ss: seq<(string, char)>, source: string, priority: char -> int, t: string)
    requires t in Combined(ss, source, priority).values
    ensures var c := Combined(ss, source, priority).values[t];
            Suggests(ss, t, c) || (c == 'x' && Suggests(ss, t, '<') && Suggests(ss, t, '>'))
    decreases |ss|
  {
    var init := ss[..|ss| - 1];
    var before := Combined(init, source, priority);
    assert forall i | 0 <= i < |init| :: init[i] == ss[i];
    assert ss[|ss| - 1] == ss[|ss| - 1];
    if t in before.values {
      CombinedChar(init, source, priority, t);
    }
  }

  /** The priority of the stored character never drops, given that `x` outranks an equal-priority `<`/`>` pair. */
  predicate MergeOutranks(priority: char -> int) {
    priority('<') == priority('>') ==> priority('x') >= priority('<')
  }

  /**
   * Under MergeOutranks, the character kept for a target has a priority at
   * least that of every suggestion of the target.
   */
  lemma {:induction false} CombinedHighest(ss: seq<(string, char)>, source: string, priority: char -> int, t: string, i: nat)
    requires MergeOutranks(priority)
    requires i < |ss| && ss[i].0 == t && t in Combined(ss, source, priority).values
    ensures priority(Combined(ss, source, priority).values[t]) >= priority(ss[i].1)
    decreases |ss|
  {
    var init := ss[..|ss| - 1];
    var before := Combined(init, source, priority);
    CombinedProper(ss, source, priority, t);
    if i == |ss| - 1 {
      StepAtLeast(before, ss[i], source, priority);
    } else {
      assert init[i] == ss[i];
      if t in before.values {
        CombinedHighest(init, source, priority, t, i);
        StepMonotone(before, ss[|ss| - 1], source, priority, t);
      } else {
        CombinedKept(init, source, priority, t);
        CombinedPriority(ss, source, priority, t);
      }
    }
  }

  /** A step never lowers the priority stored for a target. */
  lemma StepMonotone(d: Dict<char>, s: (string, char), source: string, priority: char -> int, t: string)
    requires Valid(d) && MergeOutranks(priority) && t in d.values
    ensures t in CombineStep(d, s, source, priority).values
    ensures priority(CombineStep(d, s, source, priority).values[t]) >= priority(d.values[t])
  {
    var (target, c) := s;
    if target == t && c != d.values[t] && {c, d.values[t]} == {'<', '>'} {
      assert c == '<' || c == '>';
      assert d.values[t] == '<' || d.values[t] == '>';
    }
  }

  /** After a step, a proper target's stored priority is at least that of the step's character. */
  lemma StepAtLeast(d: Dict<char>, s: (string, char), source: string, priority: char -> int)
    requires Valid(d) && MergeOutranks(priority) && Proper(s.0, source)
    requires s.0 in CombineStep(d, s, source, priority).values
    ensures priority(CombineStep(d, s, source, priority).values[s.0]) >= priority(s.1)
  {
    var (target, c) := s;
    if target in d.values && c != d.values[target] && {c, d.values[target]} == {'<', '>'} {
      assert c == '<' || c == '>';
      assert d.values[target] == '<' || d.values[target] == '>';
    }
  }

  /** The combined list: proper targets, each once, with the kept character. */
  lemma CombineShape(ss: seq<(string, char)>, source: string, priority: char -> int)
    ensures var r := CombineSuggestions(ss, source, priority);
            (forall i, j | 0 <= i < j < |r| :: r[i].0 != r[j].0)
            && forall e | e in r :: e.0 in Combined(ss, source, priority).values
                                 && e.1 == Combined(ss, source, priority).values[e.0]
                                 && Proper(e.0, source)
  {
    var d := Combined(ss, source, priority);
    forall e | e in CombineSuggestions(ss, source, priority)
      ensures e.0 in d.values && e.1 == d.values[e.0] && Proper(e.0, source)
    {
      CombinedProper(ss, source, priority, e.0);
    }
  }

  /** A `<` then a `>` of equal priority for one target combine into a single `x`. */
  lemma MergeIntoMutual(t: string, source: string, priority: char -> int)
    requires Proper(t, source) && priority('<') == priority('>') >= 0
    ensures CombineSuggestions([(t, '<'), (t, '>')], source, priority) == [(t, 'x')]
  {
    var ss := [(t, '<'), (t, '>')];
    assert ss[..1] == [(t, '<')] && ss[..1][..0] == [];
    assert Combined(ss[..1], source, priority) == Dict([t], map[t := '<']);
  }

  /** Other equal-priority ties keep the first character seen. */
  lemma TieKeepsFirst(t: string, source: string, priority: char -> int, a: char, b: char)
    requires Proper(t, source) && priority(a) == priority(b) >= 0 && {a, b} != {'<', '>'}
    ensures CombineSuggestions([(t, a), (t, b)], source, priority) == [(t, a)]
  {
    var ss := [(t, a), (t, b)];
    assert ss[..1] == [(t, a)] && ss[..1][..0] == [];
    assert Combined(ss[..1], source, priority) == Dict([t], map[t := a]);
  }

  // ---------------------------------------------------------------------
  // suggest_semantic_dependencies_path_based

  /** `S` from the strong (code_similarity) threshold up, `s` from the given threshold up, else nothing. */
  function SemanticChar(confidence: real, strong: real, weak: real): (r: Option<char>)
    ensures r == Some('S') <==> confidence >= strong
    ensures r == Some('s') <==> strong > confidence >= weak
    ensures r.None? <==> confidence < strong && confidence < weak
  {
    if confidence >= strong then Some('S') else if confidence >= weak then Some('s') else None
  }

  /** The records compared against: files other than the source, in order. */
  function FileTargets(infos: seq<KeyInfo>, filePath: string): (r: seq<KeyInfo>)
    ensures forall info | info in r :: info in infos && !info.isDirectory && info.normPath != filePath
    ensures forall info | info in infos && !info.isDirectory && info.normPath != filePath :: info in r
    decreases |infos|
  {
    if infos == [] then []
    else
      var last := infos[|infos| - 1];
      assert infos == infos[..|infos| - 1] + [last];
      FileTargets(infos[..|infos| - 1], filePath) + (if !last.isDirectory && last.normPath != filePath then [last] else [])
  }

  /** The semantic suggestions against `targets`, in order. */
  function SemanticOver(targets: seq<KeyInfo>, sourceKey: string, similarity: (string, string) -> real,
                        strong: real, weak: real): seq<(string, char)>
    decreases |targets|
  {
    if targets == [] then []
    else
      var t := targets[|targets| - 1];
      SemanticOver(targets[..|targets| - 1], sourceKey, similarity, strong, weak)
      + SemanticOf(t, sourceKey, similarity, strong, weak)
  }

  /** The suggestion for one target, if its score classifies it. */
  function SemanticOf(t: KeyInfo, sourceKey: string, similarity: (string, string) -> real,
                      strong: real, weak: real): seq<(string, char)> {
    match SemanticChar(similarity(sourceKey, t.keyString), strong, weak)
    case Some(c) => [(t.normPath, c)]
    case None => []
  }

  /**
   * suggest_semantic_dependencies_path_based: nothing without an embeddings
   * directory or for a source that is unknown or a directory; otherwise a
   * classified suggestion per other file.
   */
  function SemanticDeps(filePath: string, keyInfo: Dict<KeyInfo>, embeddingsExist: bool,
                        similarity: (string, string) -> real, strong: real, weak: real): seq<(string, char)>
    requires Valid(keyInfo)
  {
    if !embeddingsExist then []
    else if filePath !in keyInfo.values || keyInfo.values[filePath].isDirectory then []
    else SemanticOver(FileTargets(Values(keyInfo), filePath), keyInfo.values[filePath].keyString, similarity, strong, weak)
  }

  /** A suggestion is made exactly for a target whose score classifies it. */
  lemma {:induction false} SemanticMembers(targets: seq<KeyInfo>, sourceKey: string, similarity: (string, string) -> real,
                                           strong: real, weak: real, e: (string, char))
    ensures e in SemanticOver(targets, sourceKey, similarity, strong, weak)
            <==> exists i | 0 <= i < |targets| :: targets[i].normPath == e.0
                   && SemanticChar(similarity(sourceKey, targets[i].keyString), strong, weak) == Some(e.1)
    decreases |targets|
  {
    if targets != [] {
      var init := targets[..|targets| - 1];
      SemanticMembers(init, sourceKey, similarity, strong, weak, e);
      assert forall i | 0 <= i < |init| :: init[i] == targets[i];
    }
  }

  /**
   * Raising the weak threshold only removes suggestions: every suggestion
   * at the higher threshold is made, with the same character, at the lower.
   */
  lemma SemanticMonotone(filePath: string, keyInfo: Dict<KeyInfo>, embeddingsExist: bool,
                         similarity: (string, string) -> real, strong: real, low: real, high: real, e: (string, char))
    requires Valid(keyInfo) && low <= high
    ensures e in SemanticDeps(filePath, keyInfo, embeddingsExist, similarity, strong, high)
            ==> e in SemanticDeps(filePath, keyInfo, embeddingsExist, similarity, strong, low)
  {
    if embeddingsExist && filePath in keyInfo.values && !keyInfo.values[filePath].isDirectory {
      var targets := FileTargets(Values(keyInfo), filePath);
      var sk := keyInfo.values[filePath].keyString;
      SemanticMembers(targets, sk, similarity, strong, high, e);
      SemanticMembers(targets, sk, similarity, strong, low, e);
    }
  }

  /** Semantic suggestions name files other than the source that are in the key map. */
  lemma SemanticTargetsFiles(filePath: string, keyInfo: Dict<KeyInfo>, embeddingsExist: bool,
                             similarity: (string, string) -> real, strong: real, weak: real, e: (string, char))
    requires Valid(keyInfo)
    requires e in SemanticDeps(filePath, keyInfo, embeddingsExist, similarity, strong, weak)
    ensures e.1 == 'S' || e.1 == 's'
    ensures exists info | info in Values(keyInfo) :: info.normPath == e.0 && !info.isDirectory && e.0 != filePath
  {
    var targets := FileTargets(Values(keyInfo), filePath);
    var sk := keyInfo.values[filePath].keyString;
    SemanticMembers(targets, sk, similarity, strong, weak, e);
    var i :| 0 <= i < |targets| && targets[i].normPath == e.0
             && SemanticChar(similarity(sk, targets[i].keyString), strong, weak) == Some(e.1);
    assert targets[i] in targets;
  }

  /** One target of the semantic loop. */
  method ClassifyOne(t: KeyInfo, sourceKey: string, similarity: (string, string) -> real, strong: real, weak: real)
    returns (r: seq<(string, char)>)
    ensures r == SemanticOf(t, sourceKey, similarity, strong, weak)
  {
    var c := SemanticChar(similarity(sourceKey, t.keyString), strong, weak);
    r := if c.Some? then [(t.normPath, c.value)] else [];
  }

  /** The loop over the other files. */
  method SemanticLoop(targets: seq<KeyInfo>, sourceKey: string, similarity: (string, string) -> real,
                      strong: real, weak: real)
    returns (r: seq<(string, char)>)
    ensures r == SemanticOver(targets, sourceKey, similarity, strong, weak)
  {
    r := [];
    var i := 0;
    while i < |targets|
      invariant i <= |targets|
      invariant r == SemanticOver(targets[..i], sourceKey, similarity, strong, weak)
    {
      assert targets[..i + 1][..i] == targets[..i];
      var one := ClassifyOne(targets[i], sourceKey, similarity, strong, weak);
      r := r + one;
      i := i + 1;
    }
    assert targets[..i] == targets;
  }

  method SuggestSemantic(filePath: string, keyInfo: Dict<KeyInfo>, embeddingsExist: bool,
                         similarity: (string, string) -> real, strong: real, weak: real)
    returns (r: seq<(string, char)>)
    requires Valid(keyInfo)
    ensures r == SemanticDeps(filePath, keyInfo, embeddingsExist, similarity, strong, weak)
  {
    if !embeddingsExist || filePath !in keyInfo.values || keyInfo.values[filePath].isDirectory {
      return [];
    }
    r := SemanticLoop(FileTargets(Values(keyInfo), filePath), keyInfo.values[filePath].keyString, similarity, strong, weak);
  }

  // ---------------------------------------------------------------------
  // suggest_dependencies and the per-type suggesters

  /**
   * The analysis result of one file: whether it has an `error` or
   * `skipped` entry, and the URL and import lists the suggesters read
   * (an item without a `url` counts as "").
   */
  datatype Analysis = Analysis(failed: bool, imports: seq<string>, links: seq<string>,
                               scripts: seq<string>, stylesheets: seq<string>, images: seq<string>)

  /** The project as the suggester sees it; the configuration getters and file-system tests are parameters. */
  datatype Project = Project(keyInfo: Dict<KeyInfo>, projectRoot: string, codeRoots: seq<string>, docDirs: seq<string>,
                             isFile: string -> bool, isDir: string -> bool, cwd: string, priority: char -> int)

  /** The inputs of the semantic step: whether the embeddings directory exists, the scores, and the code_similarity threshold. */
  datatype Semantic = Semantic(embeddingsExist: bool, similarity: (string, string) -> real, strong: real)

  /** The results of analyses outside this model. */
  datatype Unmodelled = Unmodelled(structural: seq<(string, char)>, structuralLinks: seq<(string, string)>,
                                   javascript: seq<(string, char)>)

  predicate WellFormed(p: Project) { Valid(p.keyInfo) }

  function Tracked(p: Project): set<string> { p.keyInfo.values.Keys }

  function LinkContext(normPath: string, p: Project): Context {
    Context(normPath, p.projectRoot, Tracked(p), p.isFile, p.isDir, p.cwd)
  }

  predicate IsJavascript(ext: string) { ext == ".js" || ext == ".ts" || ext == ".tsx" || ext == ".mjs" || ext == ".cjs" }

  /**
   * suggest_python_dependencies: the explicit import edges, then the
   * structural ones, then the semantic ones, combined; the AST-verified
   * links of the imports, then of the structure.
   */
  function PythonSuggestions(normPath: string, a: Analysis, p: Project, semantic: seq<(string, char)>, u: Unmodelled)
    : (seq<(string, char)>, seq<(string, string)>)
  {
    var explicit := PythonImports.PythonDeps(a.imports, normPath, p.projectRoot, Tracked(p), p.codeRoots, p.cwd);
    var links := PythonImports.LinksOf(PythonImports.ImportTargets(a.imports, normPath, p.projectRoot, Tracked(p), p.codeRoots, p.cwd), a.imports);
    (CombineSuggestions(explicit + u.structural + semantic, normPath, p.priority), links + u.structuralLinks)
  }

  /** The uncombined suggestions for a file of extension `ext` that has a usable analysis. */
  function Gathered(normPath: string, ext: string, a: Analysis, p: Project, semantic: seq<(string, char)>, u: Unmodelled)
    : seq<(string, char)>
    requires WellFormed(p)
  {
    var ctx := LinkContext(normPath, p);
    if ext == ".py" then
      PythonImports.PythonDeps(a.imports, normPath, p.projectRoot, Tracked(p), p.codeRoots, p.cwd) + u.structural + semantic
    else if IsJavascript(ext) then u.javascript + semantic
    else if ext == ".md" || ext == ".rst" then MarkdownDeps(a.links, ctx) + semantic
    else if ext == ".html" || ext == ".htm" then HtmlDeps(HtmlUrls(a.links, a.scripts, a.stylesheets, a.images), p.docDirs, ctx)
    else if ext == ".css" then CssDeps(a.imports, ctx)
    else semantic
  }

  /**
   * suggest_dependencies: nothing for a missing file or one without a
   * usable analysis; otherwise the suggestions of its type, combined, and
   * AST-verified links for Python files only.
   */
  function Suggest(filePath: string, exists_: bool, analyses: map<string, Analysis>, threshold: real,
                   p: Project, sem: Semantic, u: Unmodelled): (seq<(string, char)>, seq<(string, string)>)
    requires WellFormed(p)
  {
    if !exists_ then ([], [])
    else
      var normPath := NormalizePath(filePath, p.cwd);
      if normPath !in analyses || analyses[normPath].failed then ([], [])
      else
        var a := analyses[normPath];
        var ext := ToLower(Ext(normPath));
        var semantic := SemanticDeps(normPath, p.keyInfo, sem.embeddingsExist, sem.similarity, sem.strong, threshold);
        if ext == ".py" then PythonSuggestions(normPath, a, p, semantic, u)
        else (CombineSuggestions(Gathered(normPath, ext, a, p, semantic, u), normPath, p.priority), [])
  }

  /** The Python branch is the combination of what Gathered collects for it. */
  lemma PythonGathered(normPath: string, a: Analysis, p: Project, semantic: seq<(string, char)>, u: Unmodelled)
    requires WellFormed(p)
    ensures PythonSuggestions(normPath, a, p, semantic, u).0
            == CombineSuggestions(Gathered(normPath, ".py", a, p, semantic, u), normPath, p.priority)
  {
  }

  /**
   * Whatever the file type, the suggestions name each target once, never
   * the file itself or an empty path, and only non-Python files come
   * without AST-verified links.
   */
  lemma SuggestShape(filePath: string, exists_: bool, analyses: map<string, Analysis>, threshold: real,
                     p: Project, sem: Semantic, u: Unmodelled)
    requires WellFormed(p)
    ensures var (r, links) := Suggest(filePath, exists_, analyses, threshold, p, sem, u);
            var normPath := NormalizePath(filePath, p.cwd);
            (forall i, j | 0 <= i < j < |r| :: r[i].0 != r[j].0)
            && (forall e | e in r :: Proper(e.0, normPath))
            && (ToLower(Ext(normPath)) != ".py" ==> links == [])
  {
    if exists_ {
      var normPath := NormalizePath(filePath, p.cwd);
      if normPath in analyses && !analyses[normPath].failed {
        var ext := ToLower(Ext(normPath));
        var semantic := SemanticDeps(normPath, p.keyInfo, sem.embeddingsExist, sem.similarity, sem.strong, threshold);
        var all := Gathered(normPath, ext, analyses[normPath], p, semantic, u);
        if ext == ".py" {
          PythonGathered(normPath, analyses[normPath], p, semantic, u);
        }
        CombineShape(all, normPath, p.priority);
      }
    }
  }

  /** Whether every suggestion in `ss` has character `c`. */
  predicate AllChar(ss: seq<(string, char)>, c: char) {
    forall i | 0 <= i < |ss| :: ss[i].1 == c
  }

  /** In a list whose suggestions all carry `c`, every suggested character is `c`. */
  lemma SuggestedChar(ss: seq<(string, char)>, c: char, t: string, v: char)
    requires AllChar(ss, c)
    ensures Suggests(ss, t, v) ==> v == c
  {
    if Suggests(ss, t, v) {
      var i :| 0 <= i < |ss| && ss[i] == (t, v);
    }
  }

  /** Combining suggestions that all carry `c` keeps `c`: there is no `<`/`>` pair to merge. */
  lemma CombineKeepsChar(ss: seq<(string, char)>, source: string, priority: char -> int, c: char)
    requires AllChar(ss, c)
    ensures AllChar(CombineSuggestions(ss, source, priority), c)
  {
    var d := Combined(ss, source, priority);
    var r := CombineSuggestions(ss, source, priority);
    forall k | 0 <= k < |r|
      ensures r[k].1 == c
    {
      var t := d.order[k];
      CombinedChar(ss, source, priority, t);
      SuggestedChar(ss, c, t, d.values[t]);
      SuggestedChar(ss, c, t, '<');
      SuggestedChar(ss, c, t, '>');
    }
  }

  /** HTML links are all `d`, so their combination is. */
  lemma HtmlCombined(urls: seq<(string, Resource)>, docDirs: seq<string>, ctx: Context, source: string, priority: char -> int)
    ensures AllChar(CombineSuggestions(HtmlDeps(urls, docDirs, ctx), source, priority), 'd')
  {
    var deps := HtmlDeps(urls, docDirs, ctx);
    forall i | 0 <= i < |deps|
      ensures deps[i].1 == 'd'
    {
      assert deps[i] in deps;
      HtmlMembers(urls, docDirs, ctx, deps[i]);
    }
    CombineKeepsChar(deps, source, priority, 'd');
  }

  /** CSS imports are all `<`, so their combination is. */
  lemma CssCombined(imports: seq<string>, ctx: Context, source: string, priority: char -> int)
    ensures AllChar(CombineSuggestions(CssDeps(imports, ctx), source, priority), '<')
  {
    var deps := CssDeps(imports, ctx);
    forall i | 0 <= i < |deps|
      ensures deps[i].1 == '<'
    {
      assert deps[i] in deps;
      CssMembers(imports, ctx, deps[i]);
    }
    CombineKeepsChar(deps, source, priority, '<');
  }

  /** Markup files gather only their links: HTML only `d`, CSS only `<`, so their combination keeps that character. */
  lemma MarkupGathered(normPath: string, ext: string, a: Analysis, p: Project, semantic: seq<(string, char)>, u: Unmodelled)
    requires WellFormed(p)
    ensures var r := CombineSuggestions(Gathered(normPath, ext, a, p, semantic, u), normPath, p.priority);
            (ext == ".html" || ext == ".htm" ==> AllChar(r, 'd')) && (ext == ".css" ==> AllChar(r, '<'))
  {
    var ctx := LinkContext(normPath, p);
    if ext == ".html" || ext == ".htm" {
      var urls := HtmlUrls(a.links, a.scripts, a.stylesheets, a.images);
      assert Gathered(normPath, ext, a, p, semantic, u) == HtmlDeps(urls, p.docDirs, ctx);
      HtmlCombined(urls, p.docDirs, ctx, normPath, p.priority);
    } else if ext == ".css" {
      assert Gathered(normPath, ext, a, p, semantic, u) == CssDeps(a.imports, ctx);
      CssCombined(a.imports, ctx, normPath, p.priority);
    }
  }

  /** HTML files get only `d` suggestions, CSS files only `<`. */
  lemma MarkupChars(filePath: string, exists_: bool, analyses: map<string, Analysis>, threshold: real,
                    p: Project, sem: Semantic, u: Unmodelled)
    requires WellFormed(p)
    ensures var normPath := NormalizePath(filePath, p.cwd);
            var ext := ToLower(Ext(normPath));
            var r := Suggest(filePath, exists_, analyses, threshold, p, sem, u).0;
            (ext == ".html" || ext == ".htm" ==> AllChar(r, 'd')) && (ext == ".css" ==> AllChar(r, '<'))
  {
    var normPath := NormalizePath(filePath, p.cwd);
    if exists_ && normPath in analyses && !analyses[normPath].failed {
      var semantic := SemanticDeps(normPath, p.keyInfo, sem.embeddingsExist, sem.similarity, sem.strong, threshold);
      MarkupGathered(normPath, ToLower(Ext(normPath)), analyses[normPath], p, semantic, u);
    }
  }

  /** suggest_python_dependencies over the analyses this model covers. */
  method SuggestPythonDependencies(normPath: string, a: Analysis, p: Project, semantic: seq<(string, char)>, u: Unmodelled)
    returns (r: seq<(string, char)>, links: seq<(string, string)>)
    requires WellFormed(p)
    ensures (r, links) == PythonSuggestions(normPath, a, p, semantic, u)
  {
    var explicit, explicitLinks := PythonImports.IdentifyPythonDependencies(normPath, a.imports, p.projectRoot, Tracked(p), p.codeRoots, p.cwd);
    r := CombinePathBased(explicit + u.structural + semantic, normPath, p.priority);
    links := explicitLinks + u.structuralLinks;
  }

  /** The dispatch of suggest_dependencies. */
  method SuggestDependencies(filePath: string, exists_: bool, analyses: map<string, Analysis>, threshold: real,
                             p: Project, sem: Semantic, u: Unmodelled)
    returns (r: seq<(string, char)>, links: seq<(string, string)>)
    requires WellFormed(p)
    ensures (r, links) == Suggest(filePath, exists_, analyses, threshold, p, sem, u)
  {
    if !exists_ {
      return [], [];
    }
    var normPath := NormalizePath(filePath, p.cwd);
    if normPath !in analyses || analyses[normPath].failed {
      return [], [];
    }
    var a := analyses[normPath];
    var ext := ToLower(Ext(normPath));
    var semantic := SuggestSemantic(normPath, p.keyInfo, sem.embeddingsExist, sem.similarity, sem.strong, threshold);
    if ext == ".py" {
      r, links := SuggestPythonDependencies(normPath, a, p, semantic, u);
      return;
    }
    var ctx := LinkContext(normPath, p);
    var all: seq<(string, char)>;
    if IsJavascript(ext) {
      all := u.javascript + semantic;
    } else if ext == ".md" || ext == ".rst" {
      var md := IdentifyMarkdownDependencies(a.links, ctx);
      all := md + semantic;
    } else if ext == ".html" || ext == ".htm" {
      all := IdentifyHtmlDependencies(HtmlUrls(a.links, a.scripts, a.stylesheets, a.images), p.docDirs, ctx);
    } else if ext == ".css" {
      all := IdentifyCssDependencies(a.imports, ctx);
    } else {
      all := semantic;
    }
    assert all == Gathered(normPath, ext, a, p, semantic, u);
    r := CombinePathBased(all, normPath, p.priority);
    links := [];
  }
}
