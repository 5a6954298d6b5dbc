// Hierarchical keys: their shape, the (crashing) sort helper, path <-> key
// lookup and the key-assignment walk over a directory tree.
module KeyManager {
  import opened Outcomes
  import opened Text
  import opened PathUtils

  // ---------------------------------------------------------------------
  // validate_key: re.match(r'^(\d+)([A-Z])([a-z\d]*)$', key)

  /** Length of the run of decimal digits at the start of `s`. */
  function LeadingDigits(s: string): (n: nat)
    ensures n <= |s|
    ensures forall i :: 0 <= i < n ==> IsDigit(s[i])
    ensures n < |s| ==> !IsDigit(s[n])
    decreases |s|
  {
    if s == [] || !IsDigit(s[0]) then 0 else 1 + LeadingDigits(s[1..])
  }

  /** Tier digits, one upper-case letter, then lower-case letters and digits. */
  predicate KeyShape(s: string) {
    var n := LeadingDigits(s);
    1 <= n < |s| && IsUpper(s[n])
    && forall i :: n < i < |s| ==> IsLower(s[i]) || IsDigit(s[i])
  }

  /** Python's `$` also matches just before a final newline. */
  predicate ValidateKey(key: string) {
    KeyShape(key) || (key != [] && key[|key| - 1] == '\n' && KeyShape(key[..|key| - 1]))
  }

  lemma ValidateKeyExamples()
    ensures ValidateKey("1A") && ValidateKey("1A1") && ValidateKey("21Aa")
    ensures !ValidateKey("M1A") && !ValidateKey("") && !ValidateKey("1a")
    ensures ValidateKey("1A\n")
  {
    assert LeadingDigits("1A") == 1;
    assert LeadingDigits("1A1") == 1;
    assert LeadingDigits("21Aa") == 2;
    assert LeadingDigits("1A\n"[..2]) == 1;
  }

  // ---------------------------------------------------------------------
  // sort_keys

  /** A character that KEY_PATTERN `(\d+)|([A-Z])|([a-z]+)|(\d+)` matches. */
  predicate HasKeyPatternChar(s: string) { exists i :: 0 <= i < |s| && IsAlnum(s[i]) }

  /**
   * sort_keys as written: `re.findall` over a pattern with four groups
   * yields tuples, and calling `.isdigit()` on a tuple raises
   * AttributeError.  It is raised as soon as one key has a part, i.e. one
   * character the pattern matches; otherwise every sort key is `[]` and the
   * stable sort returns the list unchanged.
   */
  function SortKeys(keys: seq<string>): (r: Result<seq<string>>)
    ensures r.Err? <==> exists k | k in keys :: HasKeyPatternChar(k)
    ensures r.Err? ==> r.error == AttributeError
    ensures r.Ok? ==> r.value == keys
  {
    if exists k | k in keys :: HasKeyPatternChar(k) then Err(AttributeError) else Ok(keys)
  }

  /** Every well-formed key holds a digit, so sort_keys never succeeds on real keys. */
  lemma SortKeysFailsOnValidKey(keys: seq<string>, k: string)
    requires k in keys && ValidateKey(k)
    ensures SortKeys(keys) == Err(AttributeError)
  {
    var body := if KeyShape(k) then k else k[..|k| - 1];
    assert IsDigit(body[0]);
    assert IsAlnum(k[0]);
    assert HasKeyPatternChar(k);
  }

  // ---------------------------------------------------------------------
  // get_path_from_key / get_key_from_path

  /** get_path_from_key: a plain lookup. */
  function GetPathFromKey(key: string, keyMap: map<string, string>): (r: Option<string>)
    ensures r.Some? <==> key in keyMap
    ensures r.Some? ==> r.value == keyMap[key]
  {
    if key in keyMap then Some(keyMap[key]) else None
  }

  /** The path form key_map stores: normalised, with back-slashes turned into '/'. */
  function KeyPath(path: string, cwd: string): string {
    ReplaceChar(NormalizePath(path, cwd), '\\', '/')
  }

  /** The first key, in the dictionary's insertion order, whose path is `p`. */
  function FirstKeyWithPath(items: seq<(string, string)>, p: string): (r: Option<string>)
    ensures r.None? <==> forall i :: 0 <= i < |items| ==> items[i].1 != p
    ensures r.Some? ==> exists j :: 0 <= j < |items| && items[j] == (r.value, p)
                                    && forall i :: 0 <= i < j ==> items[i].1 != p
    decreases |items|
  {
    if items == [] then None
    else if items[0].1 == p then Some(items[0].0)
    else
      var r := FirstKeyWithPath(items[1..], p);
      assert forall i :: 1 <= i < |items| ==> items[i] == items[1..][i - 1];
      r
  }

  /**
   * get_key_from_path over the dictionary's items in insertion order: a
   * search loop that stops at the first key whose path equals the
   * normalised `path`.
   */
  method GetKeyFromPath(path: string, items: seq<(string, string)>, cwd: string) returns (r: Option<string>)
    ensures r == FirstKeyWithPath(items, KeyPath(path, cwd))
  {
    var normPath := KeyPath(path, cwd);
    var i := 0;
    while i < |items|
      invariant 0 <= i <= |items|
      invariant FirstKeyWithPath(items[i..], normPath) == FirstKeyWithPath(items, normPath)
    {
      if items[i].1 == normPath {
        return Some(items[i].0);
      }
      assert items[i..][1..] == items[i + 1..];
      i := i + 1;
    }
    return None;
  }

  /** The map a list of distinct-key items builds. */
  function MapOf(items: seq<(string, string)>): (m: map<string, string>)
    ensures forall i :: 0 <= i < |items| ==> items[i].0 in m
    decreases |items|
  {
    if items == [] then map[] else MapOf(items[..|items| - 1])[items[|items| - 1].0 := items[|items| - 1].1]
  }

  predicate DistinctKeys(items: seq<(string, string)>) {
    forall i, j :: 0 <= i < j < |items| ==> items[i].0 != items[j].0
  }

  predicate DistinctPaths(items: seq<(string, string)>) {
    forall i, j :: 0 <= i < j < |items| ==> items[i].1 != items[j].1
  }

  lemma {:induction false} MapOfLookup(items: seq<(string, string)>, j: nat)
    requires DistinctKeys(items) && j < |items|
    ensures MapOf(items)[items[j].0] == items[j].1
    decreases |items|
  {
    if j < |items| - 1 {
      MapOfLookup(items[..|items| - 1], j);
    }
  }

  /**
   * When keys and paths are both distinct, looking up a key's path and
   * then the key of that path gives the key back.
   */
  lemma PathKeyRoundTrip(items: seq<(string, string)>, j: nat)
    requires DistinctKeys(items) && DistinctPaths(items) && j < |items|
    ensures GetPathFromKey(items[j].0, MapOf(items)) == Some(items[j].1)
    ensures FirstKeyWithPath(items, items[j].1) == Some(items[j].0)
  {
    MapOfLookup(items, j);
  }

  // ---------------------------------------------------------------------
  // generate_keys: the key-assignment walk

  /** A directory tree as listed: children in the order `sorted(os.listdir)` yields. */
  datatype FsNode = File(name: string) | Dir(name: string, children: seq<FsNode>)

  /** A root path and what exists there (None: the path does not exist). */
  datatype Root = Root(path: string, node: Option<FsNode>)

  datatype Exclusions = Exclusions(dirs: set<string>, extensions: set<string>)

  /** One key the walk meets, the path it names (before normalisation), and the key it hangs under. */
  datatype Step = Step(key: string, path: string, parent: Option<string>)

  /** generate_keys' result: key_map, new_keys and initial_suggestions. */
  datatype KeyState = KeyState(keyMap: map<string, string>, newKeys: seq<string>,
                               suggestions: map<string, seq<(string, char)>>)

  const EmptyState := KeyState(map[], [], map[])

  /** chr(n); code points a Dafny char cannot hold become U+FFFD. */
  function Chr(n: nat): char {
    if n < 0xD800 then n as char else '\U{FFFD}'
  }

  function Basename(p: string): string { p[RFind(p, Sep) + 1..] }

  /** The items the walk skips without advancing a counter. */
  predicate SkippedItem(name: string, ex: Exclusions) {
    name in ex.dirs || name == "__pycache__" || name == ".gitkeep" || Ext(name) in ex.extensions
  }

  /** initial_suggestions[a].append((b, 'x')) on a defaultdict(list). */
  function Suggest(sg: map<string, seq<(string, char)>>, a: string, b: string): map<string, seq<(string, char)>> {
    sg[a := (if a in sg then sg[a] else []) + [(b, 'x')]]
  }

  /** Record one key: insert it, normalised, only the first time; suggest 'x' both ways. */
  function ApplyStep(st: KeyState, s: Step, cwd: string): KeyState {
    var isNew := s.key !in st.keyMap;
    KeyState(
      if isNew then st.keyMap[s.key := KeyPath(s.path, cwd)] else st.keyMap,
      if isNew then st.newKeys + [s.key] else st.newKeys,
      match s.parent
      case None => st.suggestions
      case Some(p) => Suggest(Suggest(st.suggestions, p, s.key), s.key, p))
  }

  function ApplySteps(st: KeyState, steps: seq<Step>, cwd: string): KeyState
    decreases |steps|
  {
    if steps == [] then st else ApplySteps(ApplyStep(st, steps[0], cwd), steps[1..], cwd)
  }

  /** The keys met inside a directory (nothing when it is a file: listdir fails). */
  function ListingSteps(node: FsNode, dirPath: string, key: string, tier: nat, ex: Exclusions, cwd: string): seq<Step>
    decreases node, 1, 0
  {
    if node.File? then [] else ItemSteps(node, 0, dirPath, key, tier, 1, 1, ex, cwd)
  }

  /**
   * The loop over a directory's items from the i-th on: files get the
   * directory's key and the file counter, subdirectories the next tier,
   * the directory's key and the subdirectory letter, and are walked at once.
   */
  function ItemSteps(parent: FsNode, i: nat, dirPath: string, key: string, tier: nat,
                     fileCount: nat, subdirCount: nat, ex: Exclusions, cwd: string): seq<Step>
    requires parent.Dir? && i <= |parent.children|
    decreases parent, 0, |parent.children| - i
  {
    if i == |parent.children| then []
    else
      var item := parent.children[i];
      var itemPath := Join2(dirPath, item.name);
      if SkippedItem(item.name, ex) then
        ItemSteps(parent, i + 1, dirPath, key, tier, fileCount, subdirCount, ex, cwd)
      else if item.File? then
        [Step(key + NatToString(fileCount), itemPath, Some(key))]
        + ItemSteps(parent, i + 1, dirPath, key, tier, fileCount + 1, subdirCount, ex, cwd)
      else
        var subdirKey := NatToString(tier + 1) + key + [Chr(97 + subdirCount - 1)];
        [Step(subdirKey, itemPath, Some(key))]
        + (SubdirSteps(item, itemPath, subdirKey, tier + 1, ex, cwd)
           + ItemSteps(parent, i + 1, dirPath, key, tier, fileCount, subdirCount + 1, ex, cwd))
  }

  /** process_directory below the top level: the key is the one handed down. */
  function SubdirSteps(node: FsNode, dirPath: string, key: string, tier: nat, ex: Exclusions, cwd: string): seq<Step>
    decreases node, 2, 0
  {
    if Basename(dirPath) in ex.dirs then [] else ListingSteps(node, dirPath, key, tier, ex, cwd)
  }

  /** The key of the top-level directory processed when `dirToLetter` has |dirToLetter| entries. */
  function RootKey(dirToLetter: map<string, char>, trackerType: string): string {
    var letter := Chr(65 + |dirToLetter|);
    if trackerType == "mini" then "M1" + [letter] else "1" + [letter]
  }

  /** The roots from the i-th on, threading dir_to_letter. */
  function RootSteps(roots: seq<Root>, i: nat, dirToLetter: map<string, char>, ex: Exclusions,
                     trackerType: string, cwd: string): seq<Step>
    requires i <= |roots| && forall j :: 0 <= j < |roots| ==> roots[j].node.Some?
    decreases |roots| - i
  {
    if i == |roots| then []
    else
      var root := roots[i];
      if Basename(root.path) in ex.dirs then RootSteps(roots, i + 1, dirToLetter, ex, trackerType, cwd)
      else
        var norm := KeyPath(root.path, cwd);
        var key := RootKey(dirToLetter, trackerType);
        [Step(key, root.path, None)]
        + ListingSteps(root.node.value, root.path, key, 1, ex, cwd)
        + RootSteps(roots, i + 1, dirToLetter[norm := Chr(65 + |dirToLetter|)], ex, trackerType, cwd)
  }

  /** One processed root: its key, its listing, then the remaining roots. */
  lemma RootStepsUnfold(roots: seq<Root>, i: nat, dirToLetter: map<string, char>, ex: Exclusions,
                        trackerType: string, cwd: string)
    requires i < |roots| && forall j :: 0 <= j < |roots| ==> roots[j].node.Some?
    requires Basename(roots[i].path) !in ex.dirs
    ensures var key := RootKey(dirToLetter, trackerType);
            var letters := dirToLetter[KeyPath(roots[i].path, cwd) := Chr(65 + |dirToLetter|)];
            RootSteps(roots, i, dirToLetter, ex, trackerType, cwd)
            == [Step(key, roots[i].path, None)] + ListingSteps(roots[i].node.value, roots[i].path, key, 1, ex, cwd)
               + RootSteps(roots, i + 1, letters, ex, trackerType, cwd)
  {
  }

  /** The first root, from the i-th on, whose path does not exist. */
  function FirstMissing(roots: seq<Root>, i: nat): (r: Option<string>)
    requires i <= |roots|
    ensures r.None? <==> forall j :: i <= j < |roots| ==> roots[j].node.Some?
    ensures r.Some? ==> exists j :: i <= j < |roots| && roots[j].node.None? && roots[j].path == r.value
    decreases |roots| - i
  {
    if i == |roots| then None
    else if roots[i].node.None? then Some(roots[i].path)
    else FirstMissing(roots, i + 1)
  }

  /** What generate_keys returns, or the FileNotFoundError it raises first. */
  function GenerateSpec(roots: seq<Root>, ex: Exclusions, trackerType: string, cwd: string): Result<KeyState> {
    match FirstMissing(roots, 0)
    case Some(p) => Err(FileNotFoundError(p))
    case None => Ok(ApplySteps(EmptyState, RootSteps(roots, 0, map[], ex, trackerType, cwd), cwd))
  }

  lemma {:induction false} ApplyConcat(st: KeyState, a: seq<Step>, b: seq<Step>, cwd: string)
    ensures ApplySteps(st, a + b, cwd) == ApplySteps(ApplySteps(st, a, cwd), b, cwd)
    decreases |a|
  {
    if a == [] {
      assert a + b == b;
    } else {
      assert (a + b)[1..] == a[1..] + b;
      ApplyConcat(ApplyStep(st, a[0], cwd), a[1..], b, cwd);
    }
  }

  lemma ApplyCons(st: KeyState, s: Step, rest: seq<Step>, cwd: string)
    ensures ApplySteps(st, [s] + rest, cwd) == ApplySteps(ApplyStep(st, s, cwd), rest, cwd)
  {
    assert ([s] + rest)[1..] == rest;
  }

  /** One unfolding of the item loop, case by case: a skipped item. */
  lemma SkipUnfold(parent: FsNode, i: nat, dirPath: string, key: string, tier: nat,
                   fileCount: nat, subdirCount: nat, ex: Exclusions, cwd: string)
    requires parent.Dir? && i < |parent.children| && SkippedItem(parent.children[i].name, ex)
    ensures ItemSteps(parent, i, dirPath, key, tier, fileCount, subdirCount, ex, cwd)
            == ItemSteps(parent, i + 1, dirPath, key, tier, fileCount, subdirCount, ex, cwd)
  {
  }

  /** A file gets the directory's key followed by the file counter. */
  lemma FileUnfold(parent: FsNode, i: nat, dirPath: string, key: string, tier: nat,
                   fileCount: nat, subdirCount: nat, ex: Exclusions, cwd: string)
    requires parent.Dir? && i < |parent.children| && !SkippedItem(parent.children[i].name, ex)
    requires parent.children[i].File?
    ensures ItemSteps(parent, i, dirPath, key, tier, fileCount, subdirCount, ex, cwd)
            == [Step(key + NatToString(fileCount), Join2(dirPath, parent.children[i].name), Some(key))]
               + ItemSteps(parent, i + 1, dirPath, key, tier, fileCount + 1, subdirCount, ex, cwd)
  {
  }

  /** A subdirectory gets its key, then its own walk, before the next item. */
  lemma DirUnfold(parent: FsNode, i: nat, dirPath: string, key: string, tier: nat,
                  fileCount: nat, subdirCount: nat, ex: Exclusions, cwd: string)
    requires parent.Dir? && i < |parent.children| && !SkippedItem(parent.children[i].name, ex)
    requires parent.children[i].Dir?
    ensures var item := parent.children[i];
            var itemPath := Join2(dirPath, item.name);
            var subdirKey := NatToString(tier + 1) + key + [Chr(97 + subdirCount - 1)];
            ItemSteps(parent, i, dirPath, key, tier, fileCount, subdirCount, ex, cwd)
            == [Step(subdirKey, itemPath, Some(key))]
               + (SubdirSteps(item, itemPath, subdirKey, tier + 1, ex, cwd)
                  + ItemSteps(parent, i + 1, dirPath, key, tier, fileCount, subdirCount + 1, ex, cwd))
  {
  }

  // ---------------------------------------------------------------------
  // What recording keys guarantees

  /** new_keys lists each key of key_map exactly once. */
  predicate Coherent(st: KeyState) {
    (forall i, j :: 0 <= i < j < |st.newKeys| ==> st.newKeys[i] != st.newKeys[j])
    && (forall k | k in st.keyMap :: k in st.newKeys)
    && (forall i | 0 <= i < |st.newKeys| :: st.newKeys[i] in st.keyMap)
  }

  /** Every suggestion is an 'x' whose mirror image is present too. */
  predicate Symmetric(sg: map<string, seq<(string, char)>>) {
    forall a | a in sg :: forall j | 0 <= j < |sg[a]| ::
      sg[a][j].1 == 'x' && sg[a][j].0 in sg && (a, 'x') in sg[sg[a][j].0]
  }

  lemma SuggestKeeps(sg: map<string, seq<(string, char)>>, a: string, b: string)
    ensures var sg' := Suggest(sg, a, b);
            a in sg' && (b, 'x') in sg'[a]
            && forall k | k in sg :: k in sg' && forall j | 0 <= j < |sg[k]| :: sg[k][j] in sg'[k]
  {
  }

  lemma ApplyStepCoherent(st: KeyState, s: Step, cwd: string)
    requires Coherent(st)
    ensures Coherent(ApplyStep(st, s, cwd))
  {
  }

  lemma ApplyStepSymmetric(st: KeyState, s: Step, cwd: string)
    requires Symmetric(st.suggestions)
    ensures Symmetric(ApplyStep(st, s, cwd).suggestions)
  {
    if s.parent.Some? {
      var p := s.parent.value;
      var sg1: map<string, seq<(string, char)>> := Suggest(st.suggestions, p, s.key);
      var sg2: map<string, seq<(string, char)>> := Suggest(sg1, s.key, p);
      SuggestKeeps(st.suggestions, p, s.key);
      SuggestKeeps(sg1, s.key, p);
      forall a | a in sg2
        ensures forall j | 0 <= j < |sg2[a]| :: sg2[a][j].1 == 'x' && sg2[a][j].0 in sg2 && (a, 'x') in sg2[sg2[a][j].0]
      {
        forall j | 0 <= j < |sg2[a]|
          ensures sg2[a][j].1 == 'x' && sg2[a][j].0 in sg2 && (a, 'x') in sg2[sg2[a][j].0]
        {
          var e := sg2[a][j];
          if a == s.key && j == |sg2[a]| - 1 {
            assert e == (p, 'x');
          } else if a == p && e == (s.key, 'x') {
          } else {
            assert a in st.suggestions && e in st.suggestions[a] by {
              if a == s.key {
                assert sg2[a] == (if a in sg1 then sg1[a] else []) + [(p, 'x')];
                assert e in sg1[a];
              } else {
                assert sg2[a] == sg1[a];
              }
              if a == p {
                assert sg1[a] == (if a in st.suggestions then st.suggestions[a] else []) + [(s.key, 'x')];
              } else {
                assert sg1[a] == st.suggestions[a];
              }
            }
          }
        }
      }
    }
  }

  /** The keys a sequence of steps names. */
  function StepKeys(steps: seq<Step>): set<string> {
    set s | s in steps :: s.key
  }

  /** Recording keeps new_keys and key_map in step and the suggestions symmetric. */
  lemma {:induction false} ApplyStepsCoherent(st: KeyState, steps: seq<Step>, cwd: string)
    requires Coherent(st) && Symmetric(st.suggestions)
    ensures Coherent(ApplySteps(st, steps, cwd)) && Symmetric(ApplySteps(st, steps, cwd).suggestions)
    decreases |steps|
  {
    if steps != [] {
      ApplyStepCoherent(st, steps[0], cwd);
      ApplyStepSymmetric(st, steps[0], cwd);
      ApplyStepsCoherent(ApplyStep(st, steps[0], cwd), steps[1..], cwd);
    }
  }

  /**
   * Recording adds exactly the keys met and never changes a key already
   * present: a key is entered only the first time it is seen.
   */
  lemma {:induction false} ApplyStepsKeys(st: KeyState, steps: seq<Step>, cwd: string)
    ensures var r := ApplySteps(st, steps, cwd);
            r.keyMap.Keys == st.keyMap.Keys + StepKeys(steps)
            && forall k | k in st.keyMap :: r.keyMap[k] == st.keyMap[k]
    decreases |steps|
  {
    if steps != [] {
      var st1 := ApplyStep(st, steps[0], cwd);
      ApplyStepsKeys(st1, steps[1..], cwd);
      ApplyStepKeyMap(st, steps[0], cwd);
      StepKeysCons(steps);
    }
  }

  lemma ApplyStepKeyMap(st: KeyState, s: Step, cwd: string)
    ensures ApplyStep(st, s, cwd).keyMap.Keys == st.keyMap.Keys + {s.key}
    ensures forall k | k in st.keyMap :: ApplyStep(st, s, cwd).keyMap[k] == st.keyMap[k]
  {
  }

  lemma StepKeysCons(steps: seq<Step>)
    requires steps != []
    ensures StepKeys(steps) == {steps[0].key} + StepKeys(steps[1..])
  {
    assert steps == [steps[0]] + steps[1..];
  }

  /** A key not present before gets the path of its first occurrence. */
  lemma {:induction false} ApplyStepsFirstPath(st: KeyState, steps: seq<Step>, j: nat, cwd: string)
    requires j < |steps| && steps[j].key !in st.keyMap
    requires forall i | 0 <= i < j :: steps[i].key != steps[j].key
    ensures steps[j].key in ApplySteps(st, steps, cwd).keyMap
    ensures ApplySteps(st, steps, cwd).keyMap[steps[j].key] == KeyPath(steps[j].path, cwd)
    decreases |steps|
  {
    var st1 := ApplyStep(st, steps[0], cwd);
    assert ApplySteps(st, steps, cwd) == ApplySteps(st1, steps[1..], cwd);
    if j == 0 {
      assert st1.keyMap == st.keyMap[steps[0].key := KeyPath(steps[0].path, cwd)];
      ApplyStepsKeys(st1, steps[1..], cwd);
    } else {
      assert st1.keyMap.Keys <= st.keyMap.Keys + {steps[0].key};
      assert steps[1..][j - 1] == steps[j];
      assert forall i | 0 <= i < j - 1 :: steps[1..][i] == steps[i + 1];
      ApplyStepsFirstPath(st1, steps[1..], j - 1, cwd);
    }
  }

  /** Every parent-to-child key pair met is suggested as 'x' both ways. */
  lemma {:induction false} ApplyStepsSuggests(st: KeyState, steps: seq<Step>, j: nat, cwd: string)
    requires j < |steps| && steps[j].parent.Some?
    ensures var r := ApplySteps(st, steps, cwd).suggestions;
            var p := steps[j].parent.value;
            p in r && (steps[j].key, 'x') in r[p] && steps[j].key in r && (p, 'x') in r[steps[j].key]
    decreases |steps|
  {
    var st1 := ApplyStep(st, steps[0], cwd);
    if j == 0 {
      var p := steps[0].parent.value;
      SuggestKeeps(st.suggestions, p, steps[0].key);
      SuggestKeeps(Suggest(st.suggestions, p, steps[0].key), steps[0].key, p);
      SuggestionsKept(st1, steps[1..], p, (steps[0].key, 'x'), cwd);
      SuggestionsKept(st1, steps[1..], steps[0].key, (p, 'x'), cwd);
    } else {
      ApplyStepsSuggests(st1, steps[1..], j - 1, cwd);
    }
  }

  /** Suggestion lists only grow. */
  lemma {:induction false} SuggestionsKept(st: KeyState, steps: seq<Step>, a: string, e: (string, char), cwd: string)
    requires a in st.suggestions && e in st.suggestions[a]
    ensures a in ApplySteps(st, steps, cwd).suggestions && e in ApplySteps(st, steps, cwd).suggestions[a]
    decreases |steps|
  {
    if steps != [] {
      var s := steps[0];
      if s.parent.Some? {
        SuggestKeeps(st.suggestions, s.parent.value, s.key);
        SuggestKeeps(Suggest(st.suggestions, s.parent.value, s.key), s.key, s.parent.value);
      }
      SuggestionsKept(ApplyStep(st, s, cwd), steps[1..], a, e, cwd);
    }
  }

  /** What generate_keys returns keeps these invariants. */
  lemma GenerateKeysInvariants(roots: seq<Root>, ex: Exclusions, trackerType: string, cwd: string)
    ensures var r := GenerateSpec(roots, ex, trackerType, cwd);
            (r.Err? <==> exists j :: 0 <= j < |roots| && roots[j].node.None?)
            && (r.Ok? ==> Coherent(r.value) && Symmetric(r.value.suggestions))
  {
    if FirstMissing(roots, 0).None? {
      ApplyStepsCoherent(EmptyState, RootSteps(roots, 0, map[], ex, trackerType, cwd), cwd);
    }
  }

  // ---------------------------------------------------------------------
  // The keys the walk makes are well formed

  /** Every directory has at most 26 entries, so subdirectory letters stay in a..z. */
  predicate SmallDirs(n: FsNode)
    decreases n
  {
    n.Dir? ==> |n.children| <= 26 && forall i :: 0 <= i < |n.children| ==> SmallDirs(n.children[i])
  }

  predicate AllShaped(steps: seq<Step>) { forall s | s in steps :: KeyShape(s.key) }

  lemma AllShapedConcat(a: seq<Step>, b: seq<Step>)
    requires AllShaped(a) && AllShaped(b)
    ensures AllShaped(a + b)
  {
  }

  lemma RootKeyShape(dirToLetter: map<string, char>)
    requires |dirToLetter| < 26
    ensures KeyShape(RootKey(dirToLetter, "main"))
  {
    var k := RootKey(dirToLetter, "main");
    assert k == "1" + [Chr(65 + |dirToLetter|)];
    assert IsUpper(k[1]);
    assert LeadingDigits(k[1..]) == 0;
    assert LeadingDigits(k) == 1;
  }

  lemma LettersGrow(dirToLetter: map<string, char>, norm: string, c: char)
    ensures |dirToLetter[norm := c]| <= |dirToLetter| + 1
  {
    assert dirToLetter[norm := c].Keys == dirToLetter.Keys + {norm};
  }

  lemma {:induction false} LeadingDigitsAfterDigits(t: string, x: string)
    requires AllDigits(t)
    ensures LeadingDigits(t + x) == |t| + LeadingDigits(x)
    decreases |t|
  {
    if t != [] {
      assert (t + x)[1..] == t[1..] + x;
      LeadingDigitsAfterDigits(t[1..], x);
    } else {
      assert t + x == x;
    }
  }

  lemma {:induction false} LeadingDigitsStops(k: string, x: string)
    requires LeadingDigits(k) < |k|
    ensures LeadingDigits(k + x) == LeadingDigits(k)
    decreases |k|
  {
    if IsDigit(k[0]) {
      assert (k + x)[1..] == k[1..] + x;
      LeadingDigitsStops(k[1..], x);
    }
  }

  /** A file key: a well-formed key followed by the file counter. */
  lemma FileKeyShape(k: string, n: nat)
    requires KeyShape(k)
    ensures KeyShape(k + NatToString(n))
  {
    LeadingDigitsStops(k, NatToString(n));
  }

  /** A subdirectory key: the tier, a well-formed key and a lower-case letter. */
  lemma SubdirKeyShape(t: nat, k: string, c: char)
    requires KeyShape(k) && IsLower(c)
    ensures KeyShape(NatToString(t) + k + [c])
  {
    var d := NatToString(t);
    assert d + k + [c] == d + (k + [c]);
    KeyShapeSnoc(k, c);
    KeyShapeTier(d, k + [c]);
  }

  lemma KeyShapeSnoc(k: string, c: char)
    requires KeyShape(k) && IsLower(c)
    ensures KeyShape(k + [c])
  {
    LeadingDigitsStops(k, [c]);
    var s := k + [c];
    forall i | LeadingDigits(s) < i < |s| ensures IsLower(s[i]) || IsDigit(s[i]) {
      if i < |k| { assert s[i] == k[i]; }
    }
  }

  lemma KeyShapeTier(d: string, x: string)
    requires AllDigits(d) && KeyShape(x)
    ensures KeyShape(d + x)
  {
    LeadingDigitsAfterDigits(d, x);
    var s := d + x;
    var n := LeadingDigits(x);
    assert s[|d| + n] == x[n];
    forall i | |d| + n < i < |s| ensures IsLower(s[i]) || IsDigit(s[i]) {
      assert s[i] == x[i - |d|];
    }
  }

  lemma {:induction false} ListingShaped(node: FsNode, dirPath: string, key: string, tier: nat, ex: Exclusions, cwd: string)
    requires SmallDirs(node) && KeyShape(key)
    ensures AllShaped(ListingSteps(node, dirPath, key, tier, ex, cwd))
    decreases node, 1, 0
  {
    if node.Dir? {
      ItemsShaped(node, 0, dirPath, key, tier, 1, 1, ex, cwd);
    }
  }

  lemma {:induction false} SubdirShaped(node: FsNode, dirPath: string, key: string, tier: nat, ex: Exclusions, cwd: string)
    requires SmallDirs(node) && KeyShape(key)
    ensures AllShaped(SubdirSteps(node, dirPath, key, tier, ex, cwd))
    decreases node, 2, 0
  {
    if Basename(dirPath) !in ex.dirs {
      ListingShaped(node, dirPath, key, tier, ex, cwd);
    }
  }

  lemma {:induction false} ItemsShaped(parent: FsNode, i: nat, dirPath: string, key: string, tier: nat,
                                       fileCount: nat, subdirCount: nat, ex: Exclusions, cwd: string)
    requires parent.Dir? && i <= |parent.children| && SmallDirs(parent) && KeyShape(key)
    requires 1 <= subdirCount <= i + 1
    ensures AllShaped(ItemSteps(parent, i, dirPath, key, tier, fileCount, subdirCount, ex, cwd))
    decreases parent, 0, |parent.children| - i
  {
    if i < |parent.children| {
      var item := parent.children[i];
      if SkippedItem(item.name, ex) {
        SkipUnfold(parent, i, dirPath, key, tier, fileCount, subdirCount, ex, cwd);
        ItemsShaped(parent, i + 1, dirPath, key, tier, fileCount, subdirCount, ex, cwd);
      } else if item.File? {
        FileItemShaped(parent, i, dirPath, key, tier, fileCount, subdirCount, ex, cwd);
      } else {
        DirItemShaped(parent, i, dirPath, key, tier, fileCount, subdirCount, ex, cwd);
      }
    }
  }

  lemma {:induction false} FileItemShaped(parent: FsNode, i: nat, dirPath: string, key: string, tier: nat,
                                          fileCount: nat, subdirCount: nat, ex: Exclusions, cwd: string)
    requires parent.Dir? && i < |parent.children| && SmallDirs(parent) && KeyShape(key)
    requires 1 <= subdirCount <= i + 1
    requires !SkippedItem(parent.children[i].name, ex) && parent.children[i].File?
    ensures AllShaped(ItemSteps(parent, i, dirPath, key, tier, fileCount, subdirCount, ex, cwd))
    decreases parent, 0, |parent.children| - i, 0
  {
    FileUnfold(parent, i, dirPath, key, tier, fileCount, subdirCount, ex, cwd);
    FileKeyShape(key, fileCount);
    ItemsShaped(parent, i + 1, dirPath, key, tier, fileCount + 1, subdirCount, ex, cwd);
    var step := Step(key + NatToString(fileCount), Join2(dirPath, parent.children[i].name), Some(key));
    AllShapedConcat([step], ItemSteps(parent, i + 1, dirPath, key, tier, fileCount + 1, subdirCount, ex, cwd));
  }

  lemma {:induction false} DirItemShaped(parent: FsNode, i: nat, dirPath: string, key: string, tier: nat,
                                         fileCount: nat, subdirCount: nat, ex: Exclusions, cwd: string)
    requires parent.Dir? && i < |parent.children| && SmallDirs(parent) && KeyShape(key)
    requires 1 <= subdirCount <= i + 1
    requires !SkippedItem(parent.children[i].name, ex) && parent.children[i].Dir?
    ensures AllShaped(ItemSteps(parent, i, dirPath, key, tier, fileCount, subdirCount, ex, cwd))
    decreases parent, 0, |parent.children| - i, 1
  {
    assert AllShaped(ItemSteps(parent, i + 1, dirPath, key, tier, fileCount, subdirCount + 1, ex, cwd)) by {
      ItemsShaped(parent, i + 1, dirPath, key, tier, fileCount, subdirCount + 1, ex, cwd);
    }
    assert AllShaped(SubdirPart(parent, i, dirPath, key, tier, subdirCount, ex, cwd)) by {
      SubdirPartShaped(parent, i, dirPath, key, tier, subdirCount, ex, cwd);
    }
    DirItemJoin(parent, i, dirPath, key, tier, fileCount, subdirCount, ex, cwd);
  }

  /** The step of the i-th item, a subdirectory, and the steps of its walk. */
  function SubdirPart(parent: FsNode, i: nat, dirPath: string, key: string, tier: nat,
                      subdirCount: nat, ex: Exclusions, cwd: string): seq<Step>
    requires parent.Dir? && i < |parent.children|
  {
    var item := parent.children[i];
    var itemPath := Join2(dirPath, item.name);
    var subdirKey := NatToString(tier + 1) + key + [Chr(97 + subdirCount - 1)];
    [Step(subdirKey, itemPath, Some(key))] + SubdirSteps(item, itemPath, subdirKey, tier + 1, ex, cwd)
  }

  lemma {:induction false} SubdirPartShaped(parent: FsNode, i: nat, dirPath: string, key: string, tier: nat,
                                            subdirCount: nat, ex: Exclusions, cwd: string)
    requires parent.Dir? && i < |parent.children| && SmallDirs(parent) && KeyShape(key)
    requires 1 <= subdirCount <= i + 1
    ensures AllShaped(SubdirPart(parent, i, dirPath, key, tier, subdirCount, ex, cwd))
    decreases parent, 0, |parent.children| - i, 0
  {
    var item := parent.children[i];
    var itemPath := Join2(dirPath, item.name);
    var subdirKey := NatToString(tier + 1) + key + [Chr(97 + subdirCount - 1)];
    DirKeyShape(tier, key, subdirCount);
    SubdirStepShaped(tier, key, subdirCount, itemPath);
    assert SmallDirs(item);
    SubdirShaped(item, itemPath, subdirKey, tier + 1, ex, cwd);
    AllShapedConcat([Step(subdirKey, itemPath, Some(key))], SubdirSteps(item, itemPath, subdirKey, tier + 1, ex, cwd));
  }

  lemma SubdirStepShaped(tier: nat, key: string, subdirCount: nat, itemPath: string)
    requires KeyShape(NatToString(tier + 1) + key + [Chr(97 + subdirCount - 1)])
    ensures AllShaped([Step(NatToString(tier + 1) + key + [Chr(97 + subdirCount - 1)], itemPath, Some(key))])
  {
  }

  /** A subdirectory's steps: its own and its walk's, then those of the items after it. */
  lemma DirItemJoin(parent: FsNode, i: nat, dirPath: string, key: string, tier: nat,
                    fileCount: nat, subdirCount: nat, ex: Exclusions, cwd: string)
    requires parent.Dir? && i < |parent.children| && !SkippedItem(parent.children[i].name, ex) && parent.children[i].Dir?
    requires AllShaped(SubdirPart(parent, i, dirPath, key, tier, subdirCount, ex, cwd))
    requires AllShaped(ItemSteps(parent, i + 1, dirPath, key, tier, fileCount, subdirCount + 1, ex, cwd))
    ensures AllShaped(ItemSteps(parent, i, dirPath, key, tier, fileCount, subdirCount, ex, cwd))
  {
    var item := parent.children[i];
    var itemPath := Join2(dirPath, item.name);
    var subdirKey := NatToString(tier + 1) + key + [Chr(97 + subdirCount - 1)];
    var steps := ItemSteps(parent, i, dirPath, key, tier, fileCount, subdirCount, ex, cwd);
    var rest := ItemSteps(parent, i + 1, dirPath, key, tier, fileCount, subdirCount + 1, ex, cwd);
    DirUnfold(parent, i, dirPath, key, tier, fileCount, subdirCount, ex, cwd);
    Regroup([Step(subdirKey, itemPath, Some(key))], SubdirSteps(item, itemPath, subdirKey, tier + 1, ex, cwd), rest, steps);
    ShapedJoin(steps, SubdirPart(parent, i, dirPath, key, tier, subdirCount, ex, cwd), rest);
  }

  lemma DirKeyShape(tier: nat, key: string, subdirCount: nat)
    requires KeyShape(key) && 1 <= subdirCount <= 26
    ensures KeyShape(NatToString(tier + 1) + key + [Chr(97 + subdirCount - 1)])
  {
    assert IsLower(Chr(97 + subdirCount - 1));
    SubdirKeyShape(tier + 1, key, Chr(97 + subdirCount - 1));
  }

  lemma ShapedJoin(steps: seq<Step>, a: seq<Step>, b: seq<Step>)
    requires steps == a + b && AllShaped(a) && AllShaped(b)
    ensures AllShaped(steps)
  {
  }

  lemma {:induction false} RootsShaped(roots: seq<Root>, i: nat, dirToLetter: map<string, char>, ex: Exclusions, cwd: string)
    requires i <= |roots| <= 26 && forall j :: 0 <= j < |roots| ==> roots[j].node.Some? && SmallDirs(roots[j].node.value)
    requires |dirToLetter| <= i
    ensures AllShaped(RootSteps(roots, i, dirToLetter, ex, "main", cwd))
    decreases |roots| - i
  {
    if i < |roots| {
      var root := roots[i];
      if Basename(root.path) in ex.dirs {
        RootsShaped(roots, i + 1, dirToLetter, ex, cwd);
      } else {
        var letters := dirToLetter[KeyPath(root.path, cwd) := Chr(65 + |dirToLetter|)];
        assert AllShaped(RootSteps(roots, i + 1, letters, ex, "main", cwd)) by {
          LettersGrow(dirToLetter, KeyPath(root.path, cwd), Chr(65 + |dirToLetter|));
          RootsShaped(roots, i + 1, letters, ex, cwd);
        }
        RootShapedHere(roots, i, dirToLetter, ex, cwd);
      }
    }
  }

  /** A root that is walked contributes well-shaped keys ahead of the later roots' keys. */
  lemma RootShapedHere(roots: seq<Root>, i: nat, dirToLetter: map<string, char>, ex: Exclusions, cwd: string)
    requires i < |roots| <= 26 && forall j :: 0 <= j < |roots| ==> roots[j].node.Some?
    requires SmallDirs(roots[i].node.value) && |dirToLetter| <= i && Basename(roots[i].path) !in ex.dirs
    requires AllShaped(RootSteps(roots, i + 1, dirToLetter[KeyPath(roots[i].path, cwd) := Chr(65 + |dirToLetter|)], ex, "main", cwd))
    ensures AllShaped(RootSteps(roots, i, dirToLetter, ex, "main", cwd))
  {
    var root := roots[i];
    var key := RootKey(dirToLetter, "main");
    RootKeyShape(dirToLetter);
    ListingShaped(root.node.value, root.path, key, 1, ex, cwd);
    var letters := dirToLetter[KeyPath(root.path, cwd) := Chr(65 + |dirToLetter|)];
    var here := [Step(key, root.path, None)] + ListingSteps(root.node.value, root.path, key, 1, ex, cwd);
    AllShapedConcat([Step(key, root.path, None)], ListingSteps(root.node.value, root.path, key, 1, ex, cwd));
    AllShapedConcat(here, RootSteps(roots, i + 1, letters, ex, "main", cwd));
  }

  /**
   * With at most 26 roots and at most 26 entries per directory, every key
   * generate_keys assigns for a main (or doc) tracker passes validate_key.
   */
  lemma GeneratedKeysValid(roots: seq<Root>, ex: Exclusions, trackerType: string, cwd: string)
    requires trackerType != "mini"
    requires |roots| <= 26 && forall j :: 0 <= j < |roots| ==> roots[j].node.Some? && SmallDirs(roots[j].node.value)
    ensures GenerateSpec(roots, ex, trackerType, cwd).Ok?
    ensures forall k | k in GenerateSpec(roots, ex, trackerType, cwd).value.newKeys :: ValidateKey(k)
  {
    assert RootSteps(roots, 0, map[], ex, trackerType, cwd) == RootSteps(roots, 0, map[], ex, "main", cwd) by {
      RootStepsTrackerType(roots, 0, map[], ex, trackerType, cwd);
    }
    RootsShaped(roots, 0, map[], ex, cwd);
    var steps := RootSteps(roots, 0, map[], ex, trackerType, cwd);
    ApplyStepsCoherent(EmptyState, steps, cwd);
    ApplyStepsKeys(EmptyState, steps, cwd);
    var r := ApplySteps(EmptyState, steps, cwd);
    forall k | k in r.newKeys ensures ValidateKey(k) {
      assert k in r.keyMap;
    }
  }

  /** Only "mini" changes the root keys. */
  lemma {:induction false} RootStepsTrackerType(roots: seq<Root>, i: nat, dirToLetter: map<string, char>, ex: Exclusions,
                                                trackerType: string, cwd: string)
    requires trackerType != "mini"
    requires i <= |roots| && forall j :: 0 <= j < |roots| ==> roots[j].node.Some?
    ensures RootSteps(roots, i, dirToLetter, ex, trackerType, cwd) == RootSteps(roots, i, dirToLetter, ex, "main", cwd)
    decreases |roots| - i
  {
    if i < |roots| {
      var norm := KeyPath(roots[i].path, cwd);
      RootStepsTrackerType(roots, i + 1, dirToLetter, ex, trackerType, cwd);
      RootStepsTrackerType(roots, i + 1, dirToLetter[norm := Chr(65 + |dirToLetter|)], ex, trackerType, cwd);
    }
  }

  /** Mini-tracker root keys carry an 'M' prefix, which validate_key rejects. */
  lemma MiniRootKeyInvalid(dirToLetter: map<string, char>)
    ensures !ValidateKey(RootKey(dirToLetter, "mini"))
  {
    var k := RootKey(dirToLetter, "mini");
    assert LeadingDigits(k) == 0;
    assert k[|k| - 1] != '\n' || LeadingDigits(k[..|k| - 1]) == 0;
  }

  // ---------------------------------------------------------------------
  // The recursive call as written

  /** Some root the walk processes lists a subdirectory it does not skip. */
  predicate WalksSubdirectory(roots: seq<Root>, ex: Exclusions) {
    exists i :: 0 <= i < |roots| && roots[i].node.Some? && Basename(roots[i].path) !in ex.dirs
      && roots[i].node.value.Dir?
      && exists j :: 0 <= j < |roots[i].node.value.children| && roots[i].node.value.children[j].Dir?
                     && !SkippedItem(roots[i].node.value.children[j].name, ex)
  }

  /**
   * generate_keys as written: the recursive call passes four arguments to
   * the three-parameter process_directory, so the first subdirectory the
   * walk keeps raises TypeError, which escapes generate_keys.
   */
  function GenerateKeysAsWritten(roots: seq<Root>, ex: Exclusions, trackerType: string, cwd: string): (r: Result<KeyState>)
    ensures FirstMissing(roots, 0).None? && WalksSubdirectory(roots, ex) ==> r == Err(TypeError)
    ensures !WalksSubdirectory(roots, ex) ==> r == GenerateSpec(roots, ex, trackerType, cwd)
  {
    match FirstMissing(roots, 0)
    case Some(p) => Err(FileNotFoundError(p))
    case None => if WalksSubdirectory(roots, ex) then Err(TypeError) else GenerateSpec(roots, ex, trackerType, cwd)
  }

  /**
   * One root holding one subdirectory: as written generate_keys raises
   * TypeError, while the intended walk assigns the root "1A" and the
   * subdirectory "21Aa".
   */
  lemma SubdirectoryCallFails(cwd: string)
    ensures var roots := [Root("/p", Some(Dir("p", [Dir("src", [])])))];
            var ex := Exclusions({}, {});
            GenerateKeysAsWritten(roots, ex, "main", cwd) == Err(TypeError)
            && GenerateSpec(roots, ex, "main", cwd).Ok?
            && GenerateSpec(roots, ex, "main", cwd).value.keyMap.Keys == {"1A", "21Aa"}
  {
    SubdirectoryRaises(cwd);
    SubdirectoryKeys(cwd);
  }

  lemma SubdirectoryRaises(cwd: string)
    ensures GenerateKeysAsWritten([Root("/p", Some(Dir("p", [Dir("src", [])])))], Exclusions({}, {}), "main", cwd)
            == Err(TypeError)
  {
    var node := Dir("p", [Dir("src", [])]);
    var roots := [Root("/p", Some(node))];
    var ex := Exclusions({}, {});
    assert Basename("/p") == "p";
    assert WalksSubdirectory(roots, ex) by {
      assert roots[0].node.value == node;
      assert Basename(roots[0].path) !in ex.dirs;
      assert node.children[0].Dir? && !SkippedItem(node.children[0].name, ex);
    }
    assert FirstMissing(roots, 0).None?;
  }

  lemma SubdirectoryKeys(cwd: string)
    ensures var roots := [Root("/p", Some(Dir("p", [Dir("src", [])])))];
            var ex := Exclusions({}, {});
            GenerateSpec(roots, ex, "main", cwd).Ok?
            && GenerateSpec(roots, ex, "main", cwd).value.keyMap.Keys == {"1A", "21Aa"}
  {
    var roots := [Root("/p", Some(Dir("p", [Dir("src", [])])))];
    var ex := Exclusions({}, {});
    var steps := RootSteps(roots, 0, map[], ex, "main", cwd);
    ExampleSteps(cwd);
    assert FirstMissing(roots, 0).None?;
    assert GenerateSpec(roots, ex, "main", cwd) == Ok(ApplySteps(EmptyState, steps, cwd));
    ApplyStepsKeys(EmptyState, steps, cwd);
    StepKeysPair(Step("1A", "/p", None), Step("21Aa", Join2("/p", "src"), Some("1A")));
  }

  lemma StepKeysPair(a: Step, b: Step)
    ensures StepKeys([a, b]) == {a.key, b.key}
  {
    assert [a, b][0] == a && [a, b][1] == b;
  }

  lemma ExampleListing(cwd: string)
    ensures ListingSteps(Dir("p", [Dir("src", [])]), "/p", "1A", 1, Exclusions({}, {}), cwd)
            == [Step("21Aa", Join2("/p", "src"), Some("1A"))]
  {
    var node := Dir("p", [Dir("src", [])]);
    var ex := Exclusions({}, {});
    var sub := NatToString(2) + "1A" + [Chr(97)];
    assert sub == "21Aa";
    DirUnfold(node, 0, "/p", "1A", 1, 1, 1, ex, cwd);
    assert SubdirSteps(Dir("src", []), Join2("/p", "src"), sub, 2, ex, cwd) == [] by {
      assert ListingSteps(Dir("src", []), Join2("/p", "src"), sub, 2, ex, cwd) == [];
    }
    assert ItemSteps(node, 1, "/p", "1A", 1, 1, 2, ex, cwd) == [];
  }

  lemma ExampleSteps(cwd: string)
    ensures RootSteps([Root("/p", Some(Dir("p", [Dir("src", [])])))], 0, map[], Exclusions({}, {}), "main", cwd)
            == [Step("1A", "/p", None), Step("21Aa", Join2("/p", "src"), Some("1A"))]
  {
    var roots := [Root("/p", Some(Dir("p", [Dir("src", [])])))];
    assert Basename("/p") == "p";
    assert RootKey(map[], "main") == "1A";
    RootStepsUnfold(roots, 0, map[], Exclusions({}, {}), "main", cwd);
    ExampleListing(cwd);
  }

  /**
   * The nonlocal state of generate_keys: key_map, new_keys,
   * initial_suggestions and dir_to_letter, updated by process_directory.
   */
  class KeyGenerator {
    var keyMap: map<string, string>
    var newKeys: seq<string>
    var suggestions: map<string, seq<(string, char)>>
    var dirToLetter: map<string, char>
    const excluded: Exclusions
    const trackerType: string
    const cwd: string

    function State(): KeyState
      reads this
    {
      KeyState(keyMap, newKeys, suggestions)
    }

    constructor(excluded: Exclusions, trackerType: string, cwd: string)
      ensures State() == EmptyState && dirToLetter == map[]
      ensures this.excluded == excluded && this.trackerType == trackerType && this.cwd == cwd
    {
      keyMap, newKeys, suggestions, dirToLetter := map[], [], map[], map[];
      this.excluded, this.trackerType, this.cwd := excluded, trackerType, cwd;
    }

    /** Insert `key` the first time it is seen; suggest 'x' between it and `parent`. */
    method Record(key: string, path: string, parent: Option<string>)
      modifies this
      ensures State() == ApplyStep(old(State()), Step(key, path, parent), cwd)
      ensures dirToLetter == old(dirToLetter)
    {
      if key !in keyMap {
        keyMap := keyMap[key := KeyPath(path, cwd)];
        newKeys := newKeys + [key];
      }
      if parent.Some? {
        suggestions := Suggest(Suggest(suggestions, parent.value, key), key, parent.value);
      }
    }

    /** The listing of one directory and the loop over its items. */
    method WalkItems(node: FsNode, dirPath: string, key: string, tier: nat)
      modifies this
      ensures State() == ApplySteps(old(State()), ListingSteps(node, dirPath, key, tier, excluded, cwd), cwd)
      ensures dirToLetter == old(dirToLetter)
      decreases node, 1, 0
    {
      if node.File? {
        return;
      }
      var fileCount, subdirCount := 1, 1;
      ghost var target := ApplySteps(State(), ItemSteps(node, 0, dirPath, key, tier, 1, 1, excluded, cwd), cwd);
      var i := 0;
      while i < |node.children|
        invariant 0 <= i <= |node.children|
        invariant ApplySteps(State(), ItemSteps(node, i, dirPath, key, tier, fileCount, subdirCount, excluded, cwd), cwd) == target
        invariant dirToLetter == old(dirToLetter)
        decreases |node.children| - i
      {
        fileCount, subdirCount := ProcessItem(node, i, dirPath, key, tier, fileCount, subdirCount);
        i := i + 1;
      }
    }

    /** One pass of the item loop: skip, key a file, or key and walk a subdirectory. */
    method ProcessItem(node: FsNode, i: nat, dirPath: string, key: string, tier: nat, fileCount: nat, subdirCount: nat)
      returns (fileCount': nat, subdirCount': nat)
      requires node.Dir? && i < |node.children|
      modifies this
      ensures ApplySteps(State(), ItemSteps(node, i + 1, dirPath, key, tier, fileCount', subdirCount', excluded, cwd), cwd)
              == ApplySteps(old(State()), ItemSteps(node, i, dirPath, key, tier, fileCount, subdirCount, excluded, cwd), cwd)
      ensures dirToLetter == old(dirToLetter)
      decreases node, 0, 0
    {
      fileCount', subdirCount' := fileCount, subdirCount;
      var item := node.children[i];
      var itemPath := Join2(dirPath, item.name);
      if item.name in excluded.dirs || item.name == "__pycache__" || item.name == ".gitkeep" {
        SkipUnfold(node, i, dirPath, key, tier, fileCount, subdirCount, excluded, cwd);
        return;
      }
      if Ext(item.name) in excluded.extensions {
        SkipUnfold(node, i, dirPath, key, tier, fileCount, subdirCount, excluded, cwd);
        return;
      }
      ghost var st := State();
      if item.File? {
        var fileKey := key + NatToString(fileCount);
        Record(fileKey, itemPath, Some(key));
        fileCount' := fileCount + 1;
        FileUnfold(node, i, dirPath, key, tier, fileCount, subdirCount, excluded, cwd);
        ApplyCons(st, Step(fileKey, itemPath, Some(key)),
                  ItemSteps(node, i + 1, dirPath, key, tier, fileCount', subdirCount', excluded, cwd), cwd);
      } else {
        var subdirKey := NatToString(tier + 1) + key + [Chr(97 + subdirCount - 1)];
        Record(subdirKey, itemPath, Some(key));
        ghost var mid := State();
        subdirCount' := subdirCount + 1;
        ProcessSubdirectory(item, itemPath, subdirKey, tier + 1);
        ghost var sub := SubdirSteps(item, itemPath, subdirKey, tier + 1, excluded, cwd);
        ghost var rest := ItemSteps(node, i + 1, dirPath, key, tier, fileCount', subdirCount', excluded, cwd);
        ApplyConcat(mid, sub, rest, cwd);
        DirUnfold(node, i, dirPath, key, tier, fileCount, subdirCount, excluded, cwd);
        ApplyCons(st, Step(subdirKey, itemPath, Some(key)), sub + rest, cwd);
      }
    }

    /** process_directory with a parent key. */
    method ProcessSubdirectory(node: FsNode, dirPath: string, key: string, tier: nat)
      modifies this
      ensures State() == ApplySteps(old(State()), SubdirSteps(node, dirPath, key, tier, excluded, cwd), cwd)
      ensures dirToLetter == old(dirToLetter)
      decreases node, 2, 0
    {
      if Basename(dirPath) in excluded.dirs {
        return;
      }
      WalkItems(node, dirPath, key, tier);
    }

    /** process_directory for a top-level root: a fresh letter, then the items. */
    method ProcessRoot(dirPath: string, node: FsNode)
      modifies this
      ensures State() == RootState(old(State()), old(dirToLetter), dirPath, node, excluded, trackerType, cwd)
      ensures dirToLetter == RootLetters(old(dirToLetter), dirPath, excluded, cwd)
    {
      if Basename(dirPath) in excluded.dirs {
        return;
      }
      var dirLetter := Chr(65 + |dirToLetter|);
      var normDirPath := KeyPath(dirPath, cwd);
      var key := RootKey(dirToLetter, trackerType);
      dirToLetter := dirToLetter[normDirPath := dirLetter];
      ghost var start := State();
      Record(key, dirPath, None);
      WalkItems(node, dirPath, key, 1);
      ApplyConcat(start, [Step(key, dirPath, None)], ListingSteps(node, dirPath, key, 1, excluded, cwd), cwd);
    }
  }

  /**
   * generate_keys: FileNotFoundError for the first root that does not
   * exist, before any key is assigned; otherwise every root in turn.
   */
  method GenerateKeys(roots: seq<Root>, ex: Exclusions, trackerType: string, cwd: string) returns (r: Result<KeyState>)
    ensures r == GenerateSpec(roots, ex, trackerType, cwd)
  {
    var missing := FindMissingRoot(roots);
    if missing.Some? {
      return Err(FileNotFoundError(missing.value));
    }
    var st := WalkRoots(roots, ex, trackerType, cwd);
    return Ok(st);
  }

  /** The existence check generate_keys makes on every root before assigning any key. */
  method FindMissingRoot(roots: seq<Root>) returns (missing: Option<string>)
    ensures missing == FirstMissing(roots, 0)
  {
    var i := 0;
    while i < |roots|
      invariant 0 <= i <= |roots|
      invariant FirstMissing(roots, i) == FirstMissing(roots, 0)
    {
      if roots[i].node.None? {
        return Some(roots[i].path);
      }
      i := i + 1;
    }
    return None;
  }

  /** The loop of generate_keys over the roots, all of which exist. */
  method WalkRoots(roots: seq<Root>, ex: Exclusions, trackerType: string, cwd: string) returns (st: KeyState)
    requires forall j :: 0 <= j < |roots| ==> roots[j].node.Some?
    ensures st == ApplySteps(EmptyState, RootSteps(roots, 0, map[], ex, trackerType, cwd), cwd)
  {
    var gen := new KeyGenerator(ex, trackerType, cwd);
    ghost var target := ApplySteps(EmptyState, RootSteps(roots, 0, map[], ex, trackerType, cwd), cwd);
    var i := 0;
    while i < |roots|
      invariant 0 <= i <= |roots|
      invariant gen.excluded == ex && gen.trackerType == trackerType && gen.cwd == cwd
      invariant ApplySteps(gen.State(), RootSteps(roots, i, gen.dirToLetter, ex, trackerType, cwd), cwd) == target
    {
      ghost var before := gen.State();
      ghost var letters := gen.dirToLetter;
      gen.ProcessRoot(roots[i].path, roots[i].node.value);
      RootApplied(roots, i, letters, gen.dirToLetter, ex, trackerType, cwd, before, gen.State());
      i := i + 1;
    }
    return gen.State();
  }

  /**
   * The state after process_directory on a top-level root: nothing for an
   * excluded root, else the root's own key and then its listing.
   */
  function RootState(st: KeyState, letters: map<string, char>, dirPath: string, node: FsNode, ex: Exclusions,
                     trackerType: string, cwd: string): KeyState
  {
    if Basename(dirPath) in ex.dirs then st
    else
      var key := RootKey(letters, trackerType);
      ApplySteps(st, [Step(key, dirPath, None)] + ListingSteps(node, dirPath, key, 1, ex, cwd), cwd)
  }

  /** dir_to_letter after process_directory on a top-level root: a fresh letter unless it is excluded. */
  function RootLetters(letters: map<string, char>, dirPath: string, ex: Exclusions, cwd: string): map<string, char> {
    if Basename(dirPath) in ex.dirs then letters else letters[KeyPath(dirPath, cwd) := Chr(65 + |letters|)]
  }

  /** Processing the i-th root moves its steps from the pending roots into the state. */
  lemma RootApplied(roots: seq<Root>, i: nat, letters: map<string, char>, letters': map<string, char>, ex: Exclusions,
                    trackerType: string, cwd: string, before: KeyState, after: KeyState)
    requires i < |roots| && forall j :: 0 <= j < |roots| ==> roots[j].node.Some?
    requires after == RootState(before, letters, roots[i].path, roots[i].node.value, ex, trackerType, cwd)
    requires letters' == RootLetters(letters, roots[i].path, ex, cwd)
    ensures ApplySteps(after, RootSteps(roots, i + 1, letters', ex, trackerType, cwd), cwd)
            == ApplySteps(before, RootSteps(roots, i, letters, ex, trackerType, cwd), cwd)
  {
    if Basename(roots[i].path) in ex.dirs {
      assert RootSteps(roots, i, letters, ex, trackerType, cwd) == RootSteps(roots, i + 1, letters, ex, trackerType, cwd);
    } else {
      var key := RootKey(letters, trackerType);
      var here := [Step(key, roots[i].path, None)] + ListingSteps(roots[i].node.value, roots[i].path, key, 1, ex, cwd);
      assert letters' == letters[KeyPath(roots[i].path, cwd) := Chr(65 + |letters|)];
      RootStepsUnfold(roots, i, letters, ex, trackerType, cwd);
      ApplyConcatAt(before, RootSteps(roots, i, letters, ex, trackerType, cwd), here,
                    RootSteps(roots, i + 1, letters', ex, trackerType, cwd), after, cwd);
    }
  }

  lemma ApplyConcatAt(st: KeyState, steps: seq<Step>, a: seq<Step>, b: seq<Step>, mid: KeyState, cwd: string)
    requires steps == a + b && mid == ApplySteps(st, a, cwd)
    ensures ApplySteps(mid, b, cwd) == ApplySteps(st, steps, cwd)
  {
    ApplyConcat(st, a, b, cwd);
  }

  /** regenerate_keys calls generate_keys with the same arguments. */
  method RegenerateKeys(roots: seq<Root>, ex: Exclusions, trackerType: string, cwd: string) returns (r: Result<KeyState>)
    ensures r == GenerateSpec(roots, ex, trackerType, cwd)
  {
    r := GenerateKeys(roots, ex, trackerType, cwd);
  }
}
