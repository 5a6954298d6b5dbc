# Dependency tracking core of CRCT, in Dafny

This project models the dependency system of the Cline Recursive
Chain-of-Thought system (`cline_utils/dependency_system`). The system assigns
hierarchical keys to the files and directories of a project (`1A`, `1A1`,
`2Aa`, ...). It records which key depends on which as rows of characters
in a run-length compressed grid. It keeps those grids in Markdown tracker
files (a main tracker, a doc tracker and one mini tracker per module). It
suggests new dependencies from import statements, document links and
similarity scores. It aggregates the trackers into one view and draws that
view as a Mermaid diagram. Around this core sit a configuration manager, a
cache with LRU eviction, expiry and dependency-driven invalidation, and a
batch processor.

The Dafny modules follow the Python files:

- `grid.dfy`: `core/dependency_grid.py`.
- `key_manager.dfy`: `core/key_manager.py`.
- `natsort.dfy`: the natural key sort as `io/tracker_io.py` applies it.
- `path_utils.dfy`: `utils/path_utils.py`.
- `tracker_io.dfy`, `tracker_edits.dfy`, `tracker_merge.dfy` and `tracker_remove.dfy`: `io/tracker_io.py`.
- `tracker_utils.dfy`: `utils/tracker_utils.py`.
- `main_tracker.dfy` and `doc_tracker.dfy`: `io/update_main_tracker.py` and `io/update_doc_tracker.py`.
- `imports.dfy`, `links.dfy`, `suggester.dfy` and `keyinfo.dfy`: `analysis/dependency_suggester.py`.
- `visualize.dfy`: `utils/visualize_dependencies.py`.
- `config.dfy`: `utils/config_manager.py`.
- `cache.dfy`: `utils/cache_manager.py`.
- `batch.dfy`: `utils/batch_processor.py`.
- Shared helpers: `outcomes.dfy` (Python's exceptions as a `Result`), `text.dfy`, `lines.dfy`, `dicts.dfy` (dictionaries in insertion order) and `seqs.dfy`.

The file system is a value. A directory is a tree of `Dir` and `File`
nodes, and a tracker file is its text. Reading a file gives the text or
`None`, and writing a file returns the new text. Every Python exception
the core raises or catches is an `Err` of `Outcomes.Error`. The caller's
working directory (`cwd`) is a parameter wherever `os.path.abspath` is
used. The code analyses the core delegates to are parameters too: the
similarity scores, the structural and JavaScript analyses, and the
configured character priorities, code roots and doc roots.

The objects that the source updates in place are classes:
`KeyManager.KeyGenerator`, `Caches.Cache`, `Caches.CacheManager`,
`Config.ConfigManager` and `Batches.BatchProcessor`. Their methods are
proved against functions on values, and the lemmas are about those
functions. Loops in the source are methods with `while` loops, for
example the grid readers, the tracker line loops, the cache's expiry
sweep and the diagram's filters.

Three places in the source disagree with each other. The first two have
no single evidently intended repair, so the model records them as
behaviour and not as findings:

- Mini-tracker keys start with `M`, which `validate_key` rejects
  (`KeyManager.MiniRootKeyInvalid`). So `create_initial_grid` refuses a
  mini tracker's own root key. Either the key scheme or the pattern could
  be the one to change.
- `update_doc_tracker.get_doc_tracker_path` and
  `tracker_io.get_tracker_path` name the doc tracker `doc_tracker.md` and
  `doctracker.md` (`DocTracker.DocTrackerPathShape`). Either name could be
  the intended one.
- `update_config` writes into the dictionaries it shares with
  `DEFAULT_CONFIG` after a shallow-copying reset
  (`Config.ResetSharesDefaults`). Here a deep copy is evidently what was
  meant, so this one is also a row of the Findings table below.

## Model

Source paths are relative to the repository root.

| member | source | states |
|---|---|---|
| DependencyGrid.CompressRoundTrip | cline_utils/dependency_system/core/dependency_grid.py:34-78 | decompress(compress(s)) gives back s for every row without digits |
| DependencyGrid.DecodeEncode | cline_utils/dependency_system/core/dependency_grid.py:34-78 | expanding the run-length encoding gives back the run sequence it was built from |
| DependencyGrid.CompressLength | cline_utils/dependency_system/core/dependency_grid.py:34-47 | compress never makes a row longer; it leaves a row unchanged exactly when the row has at most three characters or no run of three or more equal characters other than 'o' |
| DependencyGrid.CompressExample | cline_utils/dependency_system/core/dependency_grid.py:34-47 | the docstring's example: "nnnnnpppdd" becomes "n5p3dd" |
| DependencyGrid.ParseCount | cline_utils/dependency_system/core/dependency_grid.py:106-119 | _parse_count reads the maximal run of digits from the start index and returns its value and the index just after it |
| DependencyGrid.Decompress | cline_utils/dependency_system/core/dependency_grid.py:49-78 | the loop of decompress computes the decoding of the run-length text |
| DependencyGrid.GetCharAt | cline_utils/dependency_system/core/dependency_grid.py:121-147 | an index within the decoded row gives that character; an index past the end raises IndexError; a negative index gives the first run's character, since every run passes the `> index` test |
| DependencyGrid.SetCharAt | cline_utils/dependency_system/core/dependency_grid.py:149-180 | a new character longer or shorter than one raises ValueError and an index past the end raises IndexError; otherwise the decoded row changes at that index only; a negative index counts from the end as Python slicing does, with -1 the result is the row without its last character, then the new character, then the whole row again, and an index before the start puts the character in front of the row |
| DependencyGrid.CreateInitialGrid | cline_utils/dependency_system/core/dependency_grid.py:80-104 | raises ValueError exactly for an empty key list or one holding an invalid key; otherwise each key's row decodes to 'o' at the key's own index and 'p' everywhere else |
| DependencyGrid.ValidateGrid | cline_utils/dependency_system/core/dependency_grid.py:182-226 | as written, validate_grid succeeds exactly when sort_keys succeeds and every key has a row of the right length with 'o' on the diagonal |
| DependencyGrid.ValidateGridRejectsValidKeys | cline_utils/dependency_system/core/dependency_grid.py:182-226 | since sort_keys fails on every valid key, validate_grid rejects every grid over a non-empty list of valid keys |
| DependencyGrid.InitialGridValid | cline_utils/dependency_system/core/dependency_grid.py:80-104 | a grid that create_initial_grid built passes the row-length and diagonal checks of validate_grid |
| DependencyGrid.ValidateGridNatural | cline_utils/dependency_system/core/dependency_grid.py:182-226 | validate_grid with the keys put in natural order: it succeeds exactly when the keys can be compared, every key has a row, every row expands to as many cells as there are keys, and every row holds 'o' at its own key's position |
| DependencyGrid.ValidKeysValidateNatural | cline_utils/dependency_system/core/dependency_grid.py:182-226 | over valid keys the corrected validation accepts exactly the grids that pass the row checks, and it accepts every grid create_initial_grid builds |
| DependencyGrid.WriteCell | cline_utils/dependency_system/core/dependency_grid.py:228-296 | only the source row changes; its decoded text is the old row with the cell spliced in at the target column by Python slicing |
| DependencyGrid.AddDependencyToGrid | cline_utils/dependency_system/core/dependency_grid.py:228-261 | raises ValueError exactly when either key is not listed; the same key twice returns the grid unchanged; otherwise only the source row changes, and only in the target's column |
| DependencyGrid.RemoveDependencyFromGrid | cline_utils/dependency_system/core/dependency_grid.py:263-296 | as add_dependency_to_grid, writing the empty character '.' |
| DependencyGrid.GetDependenciesFromGrid | cline_utils/dependency_system/core/dependency_grid.py:298-354 | raises ValueError exactly for an unknown key; otherwise maps each group character that occurs to exactly the other keys whose column in the key's row holds it |
| DependencyGrid.ReadCell | cline_utils/dependency_system/core/dependency_grid.py:298-354 | one read of the loop: the character in column i of the key's decoded row, or the empty character when the row is missing or too short |
| DependencyGrid.FormatGridLines | cline_utils/dependency_system/core/dependency_grid.py:356-370 | the display text is the "X" header and one "key = row" line per key, in key order, when no key or row contains a line break |
| KeyManager.ValidateKeyExamples | cline_utils/dependency_system/core/key_manager.py:188-196 | validate_key accepts "1A", "1A1" and "21Aa", rejects "M1A", "" and "1a", and accepts "1A" followed by a newline, because of `$` |
| KeyManager.SortKeys | cline_utils/dependency_system/core/key_manager.py:224-236 | as written, sort_keys raises AttributeError exactly when some key contains a character the pattern matches; otherwise it returns the list unchanged |
| KeyManager.SortKeysFailsOnValidKey | cline_utils/dependency_system/core/key_manager.py:224-236 | every list holding a valid key makes sort_keys raise AttributeError |
| KeyManager.GetPathFromKey | cline_utils/dependency_system/core/key_manager.py:198-207 | returns the key's path exactly when the key is in the map |
| KeyManager.GetKeyFromPath | cline_utils/dependency_system/core/key_manager.py:209-222 | the search loop returns the first key, in insertion order, whose path equals the normalised path, and None when no key has that path |
| KeyManager.FirstKeyWithPath | cline_utils/dependency_system/core/key_manager.py:209-222 | None exactly when no entry has the path; otherwise an entry with that path with no earlier entry having it |
| KeyManager.PathKeyRoundTrip | cline_utils/dependency_system/core/key_manager.py:198-222 | when keys and paths are both distinct, a key's path looked up again gives the key back |
| KeyManager.ApplyStepsCoherent | cline_utils/dependency_system/core/key_manager.py:94-177 | recording keys keeps new_keys in step with key_map and the suggestions symmetric |
| KeyManager.ApplyStepsKeys | cline_utils/dependency_system/core/key_manager.py:94-177 | the walk adds exactly the keys it meets and never changes a key already present |
| KeyManager.ApplyStepsFirstPath | cline_utils/dependency_system/core/key_manager.py:94-177 | a new key gets the path of its first occurrence |
| KeyManager.ApplyStepsSuggests | cline_utils/dependency_system/core/key_manager.py:157-174 | every parent–child key pair met is suggested with 'x' in both directions |
| KeyManager.SuggestionsKept | cline_utils/dependency_system/core/key_manager.py:157-174 | suggestion lists only grow |
| KeyManager.GenerateKeysInvariants | cline_utils/dependency_system/core/key_manager.py:49-186 | generate_keys fails exactly when some root does not exist; otherwise its result keeps the invariants above |
| KeyManager.GeneratedKeysValid | cline_utils/dependency_system/core/key_manager.py:49-186 | for a main or doc tracker, with at most 26 roots and at most 26 entries in each directory, every key generated passes validate_key |
| KeyManager.RootStepsTrackerType | cline_utils/dependency_system/core/key_manager.py:103-121 | only the tracker type "mini" changes how root keys are formed |
| KeyManager.MiniRootKeyInvalid | cline_utils/dependency_system/core/key_manager.py:110-113 | a mini tracker's root key, with its 'M' prefix, fails validate_key |
| KeyManager.GenerateKeysAsWritten | cline_utils/dependency_system/core/key_manager.py:49-186 | as written, once every root exists, the first subdirectory the walk keeps raises TypeError from the four-argument recursive call; with no such subdirectory the result is the intended one |
| KeyManager.SubdirectoryCallFails | cline_utils/dependency_system/core/key_manager.py:170-177 | for root /p holding a subdirectory src, generate_keys as written raises TypeError, while the intended walk assigns "1A" and "21Aa" |
| KeyManager.KeyGenerator.constructor | cline_utils/dependency_system/core/key_manager.py:89-92 | the generator starts with empty key_map, new_keys, suggestions and root letters |
| KeyManager.KeyGenerator.Record | cline_utils/dependency_system/core/key_manager.py:149-174 | records a key the first time it is seen and suggests 'x' between it and its parent |
| KeyManager.KeyGenerator.WalkItems | cline_utils/dependency_system/core/key_manager.py:128-177 | the item loop over one sorted listing leaves the state the step specification gives |
| KeyManager.KeyGenerator.ProcessItem | cline_utils/dependency_system/core/key_manager.py:135-177 | one pass of the loop either skips an excluded item, keys a file, or keys and walks a subdirectory, as the step specification says |
| KeyManager.KeyGenerator.ProcessSubdirectory | cline_utils/dependency_system/core/key_manager.py:94-177 | process_directory with a parent key leaves the state the step specification gives |
| KeyManager.KeyGenerator.ProcessRoot | cline_utils/dependency_system/core/key_manager.py:94-135 | process_directory for a root takes the next letter and then walks the items |
| KeyManager.GenerateKeys | cline_utils/dependency_system/core/key_manager.py:49-186 | raises FileNotFoundError for the first missing root before any key is assigned; otherwise walks every root in turn, as the specification function says |
| KeyManager.FindMissingRoot | cline_utils/dependency_system/core/key_manager.py:83-87 | finds the first root that does not exist |
| KeyManager.WalkRoots | cline_utils/dependency_system/core/key_manager.py:181-186 | the loop over existing roots gives the state of all their steps applied in order |
| KeyManager.RegenerateKeys | cline_utils/dependency_system/core/key_manager.py:238-257 | gives the same result as a fresh generate_keys |
| PathUtils.NormPathIdempotent | cline_utils/dependency_system/utils/path_utils.py:15-39 | the component normalisation inside normalize_path is a fixed point of itself |
| PathUtils.NormOfShape | cline_utils/dependency_system/utils/path_utils.py:15-39 | a path of at most two leading slashes followed by ordinary components is already normalised |
| PathUtils.NormalizeIdempotent | cline_utils/dependency_system/utils/path_utils.py:15-39 | normalize_path("") is ""; normalising an already normalised path changes nothing |
| PathUtils.NormJoinName | cline_utils/dependency_system/utils/path_utils.py:130-141 | a normalised absolute directory joined with a plain file name needs no further normalisation |
| PathUtils.JoinedFile | cline_utils/dependency_system/utils/path_utils.py:130-141 | joining a base, a part and a plain file name gives a normalised absolute directory with the file directly in it |
| PathUtils.RFind | cline_utils/dependency_system/utils/path_utils.py:41-65 | the last position holding the character, or -1 when there is none |
| PathUtils.Ext | cline_utils/dependency_system/utils/path_utils.py:41-65 | splitext's extension is empty or starts at the last dot of the last component and contains no other dot |
| PathUtils.FileTypeCaseInsensitive | cline_utils/dependency_system/utils/path_utils.py:41-65 | upper- and lower-case spellings of a path have the same file type |
| PathUtils.FileTypeOfPythonName | cline_utils/dependency_system/utils/path_utils.py:41-65 | a name ending in an ordinary character, with ".py" appended, is a Python file |
| PathUtils.ResolvedExtension | cline_utils/dependency_system/utils/path_utils.py:67-86 | a resolved path that has an extension is left alone; one without an extension, ending in an ordinary character, ends up with the default extension |
| PathUtils.SubpathBoundary | cline_utils/dependency_system/utils/path_utils.py:170-192 | for a parent not ending in a separator, a subpath is the parent, then a separator, then more; no path is a subpath of itself |
| PathUtils.SubpathExample | cline_utils/dependency_system/utils/path_utils.py:170-192 | "/x/y/z" is below "/x/y" and "/x/yz" is not |
| PathUtils.IsPathExcluded | cline_utils/dependency_system/utils/path_utils.py:143-168 | a path is excluded exactly when some entry of the list excludes its normalised form; an empty list excludes nothing |
| PathUtils.AnyEntryExcludes | cline_utils/dependency_system/utils/path_utils.py:153-166 | the loop over the entries finds an excluding entry exactly when one exists |
| PathUtils.PrefixExclusion | cline_utils/dependency_system/utils/path_utils.py:164-166 | an entry without '*' excludes every path that starts with it as a string, across component boundaries |
| PathUtils.StarExcludesAll | cline_utils/dependency_system/utils/path_utils.py:158-163 | the entry "*" excludes every path |
| PathUtils.CommonPrefix | cline_utils/dependency_system/utils/path_utils.py:194-215 | the longest common leading part of two component lists |
| PathUtils.CommonOfAll | cline_utils/dependency_system/utils/path_utils.py:194-215 | the result is a leading part of the first component list and of every other |
| PathUtils.GetCommonPath | cline_utils/dependency_system/utils/path_utils.py:194-215 | no paths, or a mix of absolute and relative paths (commonpath's ValueError, caught), gives ""; otherwise the result is the longest common components joined by '/', with a leading '/' when the paths are absolute and none when they are relative |
| PathUtils.CommonPrefixLongest | cline_utils/dependency_system/utils/path_utils.py:194-215 | every component list that begins both lists begins their common prefix |
| PathUtils.CommonOfAllLongest | cline_utils/dependency_system/utils/path_utils.py:194-215 | every component list that begins the first list and all the others begins their common prefix, so it is the longest one |
| PathUtils.PartsAll | cline_utils/dependency_system/utils/path_utils.py:194-215 | one component list per path, each that of the normalised path |
| PathUtils.CommonParts | cline_utils/dependency_system/utils/path_utils.py:194-215 | the common components are a leading part of every normalised path's components |
| PathUtils.CommonPartsLongest | cline_utils/dependency_system/utils/path_utils.py:194-215 | every component list that all normalised paths begin with is a leading part of the common components: they are the longest common prefix, as commonpath computes |
| NaturalOrder.SortKey | cline_utils/dependency_system/io/tracker_io.py:367-369 | sort_key splits a key into digit runs as numbers and other runs as words, alternating, with nothing for the empty key |
| NaturalOrder.SameKinds | cline_utils/dependency_system/io/tracker_io.py:400-402 | keys whose first characters are the same kind have parts of the same kind at every shared position; otherwise their first parts differ in kind, where Python raises TypeError |
| NaturalOrder.NaturalStrictOrder | cline_utils/dependency_system/io/tracker_io.py:400-402 | the natural order on keys is irreflexive, transitive and total on comparable keys |
| NaturalOrder.InsertionSortPermutes | cline_utils/dependency_system/io/tracker_io.py:430 | sorting keeps every key as often as it occurs |
| NaturalOrder.InsertionSortSorted | cline_utils/dependency_system/io/tracker_io.py:430 | with a strict order, the result is sorted |
| NaturalOrder.NaturalSort | cline_utils/dependency_system/io/tracker_io.py:430 | sorted(keys, key=sort_key) raises TypeError exactly when two keys start with characters of different kinds; otherwise it returns the keys in ascending natural order, as a permutation |
| NaturalOrder.NaturalOrderExample | cline_utils/dependency_system/io/tracker_io.py:400-402 | "1A2" sorts before "1A10", although it sorts after it as text |
| TrackerIO.GetTrackerPath | cline_utils/dependency_system/io/tracker_io.py:25-54 | raises ValueError exactly for an unknown tracker type or a mini tracker without a module path; otherwise main and doc trackers sit in their configured directories under the normalised project directory, and a mini tracker in its module directory |
| TrackerIO.EmptyTracker | cline_utils/dependency_system/io/tracker_io.py:66-68 | the structure returned for a missing file: no keys, an empty grid and empty edit markers |
| TrackerIO.KeyLineStep | cline_utils/dependency_system/io/tracker_io.py:80-87 | one key line keeps the key dictionary well formed |
| TrackerIO.GridLineStep | cline_utils/dependency_system/io/tracker_io.py:90-98 | one grid line keeps the grid dictionary well formed |
| TrackerIO.ParseTracker | cline_utils/dependency_system/io/tracker_io.py:71-109 | a successful parse gives well-formed key and grid dictionaries |
| TrackerIO.ReadTrackerFile | cline_utils/dependency_system/io/tracker_io.py:56-112 | a missing file or a parse that raises gives the empty structure; the result is always well formed |
| TrackerIO.StoredRows | cline_utils/dependency_system/io/tracker_io.py:146-149 | each key's written row is its stored row, or '.' for every key when it has none |
| TrackerIO.WriteTrackerFileAsWritten | cline_utils/dependency_system/io/tracker_io.py:114-156 | as written, write_tracker_file fails (returns False) exactly when some key holds a character sort_keys's pattern matches, so it never writes a real tracker |
| TrackerIO.WriteTrackerFile | cline_utils/dependency_system/io/tracker_io.py:114-156 | with the natural sort the rest of the file uses, writing fails only when the keys mix digit-first and other keys; otherwise the file is the rendering in sorted key order |
| TrackerIO.ParseRendered | cline_utils/dependency_system/io/tracker_io.py:56-156 | reading a rendered tracker gives back the keys with their paths, the rows in written order and both edit markers |
| TrackerIO.WriteThenRead | cline_utils/dependency_system/io/tracker_io.py:56-156 | for well-formed keys, paths and rows, writing then reading gives back the key definitions, one row per key (the stored row or all '.'), and both edit markers |
| TrackerIO.RowMapStored | cline_utils/dependency_system/io/tracker_io.py:146-149 | the grid read back holds exactly the sorted keys, each with its stored row or the all-empty row |
| TrackerIO.KeysComparable | cline_utils/dependency_system/io/tracker_io.py:400-402 | keys of the tracker's shape all start with a digit, so the natural sort never raises on them |
| TrackerEdits.LineIndex | cline_utils/dependency_system/io/tracker_io.py:335-336 | lines.index: the first position holding the line, and None (ValueError) exactly when it is absent |
| TrackerEdits.ExistingKeyStep | cline_utils/dependency_system/io/tracker_io.py:337-342 | one key line keeps the dictionary well formed, and unpacking fails when the stripped line no longer holds ": " |
| TrackerEdits.ReadExistingKeys | cline_utils/dependency_system/io/tracker_io.py:330-344 | a missing start or end marker line gives the empty dictionary; the result is always well formed |
| TrackerEdits.GridMatch | cline_utils/dependency_system/io/tracker_io.py:353-356 | re.match(r"(\w+) = (.*)") gives a non-empty word-character key and a rest without a line feed |
| TrackerEdits.ReadExistingGrid | cline_utils/dependency_system/io/tracker_io.py:346-359 | a missing grid marker line gives the empty dictionary; the result is always well formed |
| TrackerEdits.EditMarker | cline_utils/dependency_system/io/tracker_io.py:446-450 | no line with the tag gives ""; the first such line without a colon raises IndexError, and only then |
| TrackerEdits.TargetFile | cline_utils/dependency_system/io/tracker_io.py:404-419 | trackers other than mini keep the given file; a mini tracker without a mapping raises ValueError, with no keys writes nothing, and otherwise goes in the module of the first key's file or raises ValueError |
| TrackerEdits.MainKeys | cline_utils/dependency_system/io/tracker_io.py:421-428 | keeps exactly the keys a main tracker shows, in order |
| TrackerEdits.FilterKeys | cline_utils/dependency_system/io/tracker_io.py:421-428 | a main tracker keeps exactly the main keys with their paths, and raises IndexError exactly when some key is empty; other trackers keep every key |
| TrackerEdits.KeyOrder | cline_utils/dependency_system/io/tracker_io.py:430 | the natural sort raises TypeError exactly when the keys cannot be compared; without sorting, the dictionary's order; either way a duplicate-free list of exactly the keys |
| TrackerEdits.FreshRow | cline_utils/dependency_system/io/tracker_io.py:377-390 | a new key's decoded row has 'o' in its own column and 'p' in every other |
| TrackerEdits.FreshRowInitial | cline_utils/dependency_system/io/tracker_io.py:377-390 | for keys listed once, a fresh row is the initial row create_initial_grid would make for that position |
| TrackerEdits.WrittenRows | cline_utils/dependency_system/io/tracker_io.py:377-390 | each written row is the stored row of the key, or its compressed fresh row |
| TrackerEdits.ApplyDepsCells | cline_utils/dependency_system/io/tracker_io.py:467-495 | applying suggestions changes only 'p' cells; each becomes the first suggestion for its column that writes something else |
| TrackerEdits.ApplySuggestions | cline_utils/dependency_system/io/tracker_io.py:467-495 | the suggestion loop gives the grid the suggestion specification describes |
| TrackerEdits.SuggestedRows | cline_utils/dependency_system/io/tracker_io.py:467-495 | rows without suggestions are unchanged; each row with suggestions is its current row with them applied and compressed again |
| TrackerEdits.SuggestionsFillPlaceholders | cline_utils/dependency_system/io/tracker_io.py:467-495 | suggestions never overwrite a set cell and keep the row's length |
| TrackerEdits.UpdateTracker | cline_utils/dependency_system/io/tracker_io.py:392-508 | errors from the target file, from the main filter and from sorting surface as Err; the update succeeds exactly when every stage that can raise succeeds; a new file gets the chosen keys, the last as last_KEY_edit, and a fresh row per key; an existing file is handled by UpdateExisting |
| TrackerEdits.UpdateExisting | cline_utils/dependency_system/io/tracker_io.py:440-498 | succeeds exactly when both edit marker lines split and the merged keys can be ordered, and otherwise fails with IndexError or TypeError; an existing file keeps its key definitions overlaid by the chosen ones and its edit markers; it reports the keys added and removed exactly, and its content is what the buffer holds after the suggestions are applied |
| TrackerEdits.RenderUpdated | cline_utils/dependency_system/io/tracker_io.py:458-498 | renders the stored grid, then with suggestions rewrites the buffer from its start with the suggested grid, giving the content the tracker gets |
| TrackerEdits.Overwrite | cline_utils/dependency_system/io/tracker_io.py:491-498 | writing after seek(0) without truncate: the new text replaces the buffer's beginning and the rest of the buffer stays |
| TrackerEdits.UpdatedContentShape | cline_utils/dependency_system/io/tracker_io.py:458-498 | without suggestions the content is the first rendering; with them it begins with the rewrite, is the rewrite when that is no shorter, and otherwise keeps the first rendering's tail after it |
| TrackerMerge.MergedKeys | cline_utils/dependency_system/io/tracker_io.py:257-259 | the merged keys are those of both trackers, each with the primary's path where it has one and the secondary's otherwise; the secondary's order comes first |
| TrackerMerge.MergeTrackersAsWritten | cline_utils/dependency_system/io/tracker_io.py:257-291 | as written, merge_trackers always fails: with ValueError exactly when create_initial_grid rejects the merged keys, and otherwise with KeyError, because it indexes the key-to-row dictionary with integer positions |
| TrackerMerge.MergeAsWrittenFails | cline_utils/dependency_system/io/tracker_io.py:262-291 | whenever the merged keys are valid, merge_trackers as written raises KeyError |
| TrackerMerge.MergedRow | cline_utils/dependency_system/io/tracker_io.py:262-291 | row i of the intended merged grid, cell by cell |
| TrackerMerge.CopyRow | cline_utils/dependency_system/io/tracker_io.py:271-288 | one row copy writes each cell of the source row whose key is in the merged list, and only into 'p' cells when filling from the secondary; other rows are unchanged |
| TrackerMerge.CopyPrimary | cline_utils/dependency_system/io/tracker_io.py:271-278 | after the first loop every cell holds the primary stage of the merge |
| TrackerMerge.FillSecondary | cline_utils/dependency_system/io/tracker_io.py:280-288 | after the second loop every cell holds the secondary stage of the merge |
| TrackerMerge.CompressRows | cline_utils/dependency_system/io/tracker_io.py:291 | the rows are exactly the merged keys, each the compressed merged row |
| TrackerMerge.MergeTrackers | cline_utils/dependency_system/io/tracker_io.py:257-328 | intended merge: ValueError exactly when the merged keys are not valid; otherwise the merged keys, one compressed merged row per key in merged order, and the primary's edit markers |
| TrackerMerge.MergedCellRead | cline_utils/dependency_system/io/tracker_io.py:271-291 | a cell read back from a merged row is the primary's cell unless that is 'p'; a 'p' is filled from the secondary; with neither, the initial 'o' diagonal and 'p' remain |
| TrackerMerge.MergeWithEmpty | cline_utils/dependency_system/io/tracker_io.py:257-291 | merging with an empty secondary keeps the primary's key order, and each of its full-length rows comes out as it went in |
| TrackerRemoval.KeyLinesOf | cline_utils/dependency_system/io/tracker_io.py:609-613 | the lines of the key section, or None exactly when a marker line is missing |
| TrackerRemoval.RemovedKey | cline_utils/dependency_system/io/tracker_io.py:609-627 | a missing marker gives "Key Definitions section not found"; the key found is the first key, in the order of the key section, whose stored path is the normalised path of the file |
| TrackerRemoval.AxisKeys | cline_utils/dependency_system/io/tracker_io.py:647-648 | the X line's keys, with IndexError exactly when the stripped line has no space |
| TrackerRemoval.GridAxis | cline_utils/dependency_system/io/tracker_io.py:643-668 | a missing grid marker line raises ValueError; a result always has the removed key on its axis |
| TrackerRemoval.DropAt | cline_utils/dependency_system/io/tracker_io.py:660-664 | the row without the character at the index, and unchanged when the index is past the end |
| TrackerRemoval.RemoveFileFromTracker | cline_utils/dependency_system/io/tracker_io.py:592-677 | a missing tracker raises FileNotFoundError, then the key section's errors, then the grid section's; otherwise the file is rewritten without the key's definition line and the key's row and column |
| TrackerRemoval.KeepKeyLines | cline_utils/dependency_system/io/tracker_io.py:630-635 | the loop keeps the definition lines of the other keys |
| TrackerRemoval.KeptKeyLinesMembers | cline_utils/dependency_system/io/tracker_io.py:630-635 | a kept line is exactly a line with ": " that is not the removed key's |
| TrackerRemoval.ShrinkRows | cline_utils/dependency_system/io/tracker_io.py:657-666 | the loop writes every other key's row without the removed column |
| TrackerRemoval.ShrunkRowsFrom | cline_utils/dependency_system/io/tracker_io.py:657-666 | every row written back is another key's row line, read by the grid pattern |
| TrackerRemoval.ShrunkRowAligned | cline_utils/dependency_system/io/tracker_io.py:653-666 | a shrunk row decodes to the old row without the removed column, so every remaining key's cell sits where the new X axis puts it |
| TrackerRemoval.WithoutIndex | cline_utils/dependency_system/io/tracker_io.py:653 | a remaining key's position on the new axis is one less exactly when it came after the removed key |
| TrackerUtils.FoldedFindsExact | cline_utils/dependency_system/utils/tracker_utils.py:36-48 | whenever the exact-case section markers are present, the case-insensitive grid search finds a section too |
| TrackerUtils.Entry | cline_utils/dependency_system/utils/tracker_utils.py:42-44 | the entry pattern's key is a non-empty run of letters and digits at the start of the line |
| TrackerUtils.LineEntry | cline_utils/dependency_system/utils/tracker_utils.py:38-59 | a line contributes an entry only when it is not blank, is not the header, matches the pattern, and has a key that passes validate_key |
| TrackerUtils.FillKeys | cline_utils/dependency_system/utils/tracker_utils.py:43-59 | a key is in the dictionary exactly when some line assigns it |
| TrackerUtils.FillLast | cline_utils/dependency_system/utils/tracker_utils.py:43-59 | a key's value is that of the last line naming it |
| TrackerUtils.Collected | cline_utils/dependency_system/utils/tracker_utils.py:36-59 | the section's dictionary is well formed and holds only valid keys |
| TrackerUtils.KeyLineEntry | cline_utils/dependency_system/utils/tracker_utils.py:40-45 | a key line as the writers produce it is read back as its key and normalised path |
| TrackerUtils.RowLineEntry | cline_utils/dependency_system/utils/tracker_utils.py:53-59 | a row line as the writers produce it is read back as its key and row |
| TrackerUtils.FillEntries | cline_utils/dependency_system/utils/tracker_utils.py:39-59 | the loop over a section's lines yields the dictionary that assigning each line's entry in turn gives |
| TrackerUtils.CollectLines | cline_utils/dependency_system/utils/tracker_utils.py:36-59 | the loop yields the section dictionary of the specification |
| TrackerUtils.TolerantRead | cline_utils/dependency_system/utils/tracker_utils.py:21-71 | a missing file gives the empty structure, and every key in the keys and in the grid passes validate_key |
| TrackerUtils.ReadTrackerFile | cline_utils/dependency_system/utils/tracker_utils.py:21-71 | the method computes the tolerant read of the file |
| TrackerUtils.Aggregated | cline_utils/dependency_system/utils/tracker_utils.py:115-188 | a link is aggregated exactly when it was met with a character that has a priority; it keeps the highest priority met, the last character met with that priority, and exactly the trackers that met it with that priority |
| TrackerUtils.ObserveFirst | cline_utils/dependency_system/utils/tracker_utils.py:166-178 | the first time a link is met with a priority, it is stored with that tracker alone |
| TrackerUtils.ObserveAgain | cline_utils/dependency_system/utils/tracker_utils.py:166-183 | meeting a stored link again: a higher priority starts over, an equal one adds the tracker, a lower one is ignored |
| TrackerUtils.AggregateRow | cline_utils/dependency_system/utils/tracker_utils.py:159-183 | the column loop folds the row's observations in order |
| TrackerUtils.AggregateTracker | cline_utils/dependency_system/utils/tracker_utils.py:146-183 | the row loop folds the tracker's observations in sorted key order |
| TrackerUtils.AggregateAllDependencies | cline_utils/dependency_system/utils/tracker_utils.py:115-188 | the tracker loop folds every tracker's observations in the order visited |
| TrackerUtils.ObservationsDefined | cline_utils/dependency_system/utils/tracker_utils.py:141-163 | every link met joins two distinct keys that the tracker holding it defines |
| TrackerUtils.WinnerDefined | cline_utils/dependency_system/utils/tracker_utils.py:163-183 | the stored character was met between two keys that some tracker defines, and is never the diagonal, '-' or 'X' |
| TrackerUtils.AggregatedLinksDefined | cline_utils/dependency_system/utils/tracker_utils.py:115-188 | every aggregated link joins two distinct keys defined in one tracker, never carries the diagonal, '-' or 'X', and has a non-empty set of origins |
| MainTracker.ModuleFoldersMembers | cline_utils/dependency_system/io/update_main_tracker.py:10-26 | exactly the directory items inside a configured code root are kept, with their paths unchanged |
| MainTracker.MainKeyFilter | cline_utils/dependency_system/io/update_main_tracker.py:10-26 | the filter loop keeps the module folders of the specification |
| MainTracker.ConcatErr | cline_utils/dependency_system/io/update_main_tracker.py:28-59 | the aggregation fails exactly when one folder's step fails, and with that step's error |
| MainTracker.HoldingFoldersMembers | cline_utils/dependency_system/io/update_main_tracker.py:52-58 | without a file-to-module map, an edge goes to every other kept folder that holds the target file, with the suggestion's character |
| MainTracker.TargetEdgesMembers | cline_utils/dependency_system/io/update_main_tracker.py:42-58 | a suggestion whose target is not a key raises KeyError; otherwise its edges carry the suggestion's character and go where the module map, or else the holding folders, say |
| MainTracker.AggregateDependencies | cline_utils/dependency_system/io/update_main_tracker.py:28-59 | the loops compute the aggregation of the specification |
| MainTracker.AggregatedShape | cline_utils/dependency_system/io/update_main_tracker.py:28-59 | aggregation fails exactly when a file inside a kept folder has a suggestion whose target is not a key; otherwise every kept folder has an entry, in order |
| MainTracker.AggregatedEdges | cline_utils/dependency_system/io/update_main_tracker.py:33-58 | each folder's list holds exactly the edges derived from the files inside it, never one to the folder itself |
| MainTracker.MainTrackerPath | cline_utils/dependency_system/io/update_main_tracker.py:61-65 | the main tracker is module_relationship_tracker.md directly in the normalised absolute memory directory |
| MainTracker.MainTrackerPathShape | cline_utils/dependency_system/io/update_main_tracker.py:61-65 | an absolute memory directory /x/y gives /x/y/module_relationship_tracker.md, whatever the project root |
| DocTracker.DocFilesMembers | cline_utils/dependency_system/io/update_doc_tracker.py:9-22 | exactly the items inside some configured documentation directory are kept, with their paths unchanged |
| DocTracker.DocDirOwnKeyExcluded | cline_utils/dependency_system/io/update_doc_tracker.py:14-21 | a documentation directory does not admit the item naming the directory itself |
| DocTracker.FindDocDir | cline_utils/dependency_system/io/update_doc_tracker.py:14-21 | the inner loop stops at the first documentation directory that holds the path, and finds one exactly when one exists |
| DocTracker.DocFileInclusion | cline_utils/dependency_system/io/update_doc_tracker.py:9-22 | the loop keeps the documentation files of the specification |
| DocTracker.DocTrackerPath | cline_utils/dependency_system/io/update_doc_tracker.py:24-28 | the doc tracker is doc_tracker.md directly in the normalised absolute memory directory |
| DocTracker.DocTrackerPathShape | cline_utils/dependency_system/io/update_doc_tracker.py:24-28 | for a memory directory /x/y this gives /x/y/doc_tracker.md, while get_tracker_path names /x/y/doctracker.md, so the two disagree |
| Caches.LiveOrExpired | cline_utils/dependency_system/utils/cache_manager.py:43-56 | get and cleanup_expired disagree only at the boundary: an entry read exactly at its expiry time, or one with the falsy expiry 0, is a miss for get but is not removed by cleanup |
| Caches.ExpiryFor | cline_utils/dependency_system/utils/cache_manager.py:61 | ttl 0 means no expiry; no ttl means the cache's default ttl; otherwise now plus the ttl |
| Caches.RemoveKeyFrom | cline_utils/dependency_system/utils/cache_manager.py:84-103 | _remove_key drops exactly the key's entry |
| Caches.RemoveKeyCount | cline_utils/dependency_system/utils/cache_manager.py:84-103 | afterwards the key is listed under no key, and every other listing is as before |
| Caches.RemoveKeyLinks | cline_utils/dependency_system/utils/cache_manager.py:84-103 | keeps the dependency and reverse-dependency dictionaries consistent, drops the key's own list of sources and adds no list |
| Caches.LeastRecent | cline_utils/dependency_system/utils/cache_manager.py:76 | min by access time: the first key, in insertion order, accessed no later than any other |
| Caches.EvictedFrom | cline_utils/dependency_system/utils/cache_manager.py:72-82 | eviction keeps the entries well formed |
| Caches.EvictsLeastRecent | cline_utils/dependency_system/utils/cache_manager.py:72-82 | eviction from a non-empty cache removes exactly one entry, one accessed no later than any other |
| Caches.RecordListsDeps | cline_utils/dependency_system/utils/cache_manager.py:63-70 | after recording, each dependency lists the key as dependent, and the key lists it among its sources |
| Caches.Stored | cline_utils/dependency_system/utils/cache_manager.py:58-70 | set keeps the entries well formed |
| Caches.SetThenGet | cline_utils/dependency_system/utils/cache_manager.py:43-70 | right after set, the key holds the value with access time now, and a later get hits exactly while the ttl has not run out (always, for ttl 0) |
| Caches.SetSize | cline_utils/dependency_system/utils/cache_manager.py:58-60 | set never takes the cache past its size limit |
| Caches.SetLinks | cline_utils/dependency_system/utils/cache_manager.py:58-70 | set keeps the links consistent and lists each dependency in both directions |
| Caches.ExpiredAmong | cline_utils/dependency_system/utils/cache_manager.py:114 | the snapshot holds exactly the keys whose expiry is set and has passed |
| Caches.RemoveExpiredData | cline_utils/dependency_system/utils/cache_manager.py:115-126 | the cleanup keeps exactly the entries that are not both listed and expired |
| Caches.CleanupKeepsLive | cline_utils/dependency_system/utils/cache_manager.py:105-126 | cleanup_expired keeps exactly the entries that have not expired |
| Caches.Invalidated | cline_utils/dependency_system/utils/cache_manager.py:131-160 | invalidating keys in turn keeps the entries well formed |
| Caches.InvalidatedData | cline_utils/dependency_system/utils/cache_manager.py:131-160 | invalidation removes exactly the entries of the invalidated keys |
| Caches.ReachedMembers | cline_utils/dependency_system/utils/cache_manager.py:147-152 | a key is reached exactly when it is listed as dependent on one of the keys |
| Caches.RemoveFromStore | cline_utils/dependency_system/utils/cache_manager.py:84-103 | the method computes _remove_key's result |
| Caches.EvictFrom | cline_utils/dependency_system/utils/cache_manager.py:72-82 | the method computes _evict_lru's result |
| Caches.StoreSet | cline_utils/dependency_system/utils/cache_manager.py:58-70 | the method computes set's result |
| Caches.CleanupStore | cline_utils/dependency_system/utils/cache_manager.py:105-126 | the method computes cleanup's result |
| Caches.InvalidateStore | cline_utils/dependency_system/utils/cache_manager.py:131-160 | the work-queue loop ends with each key invalidated once; every matching key and every key dependent on an invalidated one invalidated; each justified by a match or an earlier key; exactly their entries gone; and none still listed as anyone's dependent |
| Caches.InvalidationEnd | cline_utils/dependency_system/utils/cache_manager.py:139-156 | when the queue runs dry, the state is what invalidate promises |
| Caches.Cache.constructor | cline_utils/dependency_system/utils/cache_manager.py:32-41 | a new cache is empty, with zero hits and misses, and the named caches get their fixed size |
| Caches.Cache.RemoveKey | cline_utils/dependency_system/utils/cache_manager.py:84-103 | the object's state becomes _remove_key's result; the counters are unchanged |
| Caches.Cache.Get | cline_utils/dependency_system/utils/cache_manager.py:43-56 | a hit returns the value, refreshes the access time and counts a hit; a miss returns None, removes an expired entry and counts a miss |
| Caches.Cache.EvictLru | cline_utils/dependency_system/utils/cache_manager.py:72-82 | the object's state becomes the eviction result |
| Caches.Cache.Set | cline_utils/dependency_system/utils/cache_manager.py:58-70 | the object's state becomes set's result; the counters are unchanged |
| Caches.Cache.CleanupExpired | cline_utils/dependency_system/utils/cache_manager.py:105-126 | keeps exactly the entries that have not expired |
| Caches.Cache.Invalidate | cline_utils/dependency_system/utils/cache_manager.py:131-160 | the object's state is what invalidate promises for the keys the pattern matches |
| Caches.Cache.Stats | cline_utils/dependency_system/utils/cache_manager.py:162-163 | the hit and miss counters, and for a consistent cache the number of entries in the data dictionary |
| Caches.Cache.IsExpired | cline_utils/dependency_system/utils/cache_manager.py:128-129 | a consistent cache has expired exactly when it is older than its ttl and holds no entry |
| Caches.CacheManager.constructor | cline_utils/dependency_system/utils/cache_manager.py:167-172 | no cache is registered, and the manager invariant holds |
| Caches.CacheManager.GetCache | cline_utils/dependency_system/utils/cache_manager.py:174-179 | returns the registered cache unless it is missing or expired; otherwise registers and returns a fresh empty cache; every registered cache, the returned one included, stays consistent |
| Caches.CacheManager.ClearAll | cline_utils/dependency_system/utils/cache_manager.py:193-198 | no cache is left, and the manager invariant holds |
| Config.DefaultConfig | cline_utils/dependency_system/utils/config_manager.py:17-56 | DEFAULT_CONFIG has exactly the sections excluded_dirs, excluded_extensions, thresholds, models and paths |
| Config.MergedEntries | cline_utils/dependency_system/utils/config_manager.py:221-233 | after the update the keys are those of both sides; a key only in the settings keeps its value; a key of the update that does not recurse takes the update's value; a key where both hold a dictionary is merged recursively |
| Config.MergedCovers | cline_utils/dependency_system/utils/config_manager.py:221-233 | after the update every leaf of the update is present |
| Config.CoveredUnchanged | cline_utils/dependency_system/utils/config_manager.py:221-233 | an update that is already covered changes nothing |
| Config.MergedIdempotent | cline_utils/dependency_system/utils/config_manager.py:221-233 | repeating an update changes nothing more |
| Config.DeepUpdate | cline_utils/dependency_system/utils/config_manager.py:221-233 | the in-place loop over the update's items leaves the settings the recursive merge describes |
| Config.ExcludedDirs | cline_utils/dependency_system/utils/config_manager.py:144-151 | the configured list, or DEFAULT_CONFIG's when the settings lack the key |
| Config.ExcludedExtensions | cline_utils/dependency_system/utils/config_manager.py:153-160 | the configured list, or DEFAULT_CONFIG's when the settings lack the key |
| Config.Threshold | cline_utils/dependency_system/utils/config_manager.py:162-173 | the configured threshold, 0.7 when the type is not listed, and AttributeError when the thresholds section is not a dictionary |
| Config.ModelName | cline_utils/dependency_system/utils/config_manager.py:175-186 | the configured model, all-MiniLM-L6-v2 when the type is not listed, and AttributeError when the models section is not a dictionary |
| Config.NormalizeValue | cline_utils/dependency_system/utils/config_manager.py:201 | a string value is normalised, a falsy value gives "" |
| Config.GetPathOrder | cline_utils/dependency_system/utils/config_manager.py:188-201 | get_path tries the configured value, then the argument when it is non-empty, then DEFAULT_CONFIG's path, then "" |
| Config.DefaultThresholds | cline_utils/dependency_system/utils/config_manager.py:17-56 | with the defaults, doc_similarity is 0.7, code_similarity is 0.8, and any other type is 0.7 |
| Config.SharingKept | cline_utils/dependency_system/utils/config_manager.py:203-243 | an update keeps every shared dictionary equal in the settings and in DEFAULT_CONFIG, and DEFAULT_CONFIG's sections unchanged |
| Config.ResetSharesDefaults | cline_utils/dependency_system/utils/config_manager.py:235-243 | after the shallow-copying reset, setting doc_similarity to 0.5 also makes 0.5 DEFAULT_CONFIG's threshold, which later settings without a thresholds section fall back to |
| Config.UnsharedKeepsDefaults | cline_utils/dependency_system/utils/config_manager.py:203-233 | with no dictionary shared, an update leaves DEFAULT_CONFIG as it was |
| Config.CopiedResetKeepsDefaults | cline_utils/dependency_system/utils/config_manager.py:235-243 | after a deep-copying reset, the same update leaves DEFAULT_CONFIG unchanged and its doc threshold at 0.7 |
| Config.Globals.constructor | cline_utils/dependency_system/utils/config_manager.py:17-64 | the module starts with DEFAULT_CONFIG and no instance |
| Config.ConfigManager.constructor | cline_utils/dependency_system/utils/config_manager.py:74-85 | a new manager has no settings loaded and shares nothing |
| Config.ConfigManager.Instance | cline_utils/dependency_system/utils/config_manager.py:66-86 | ConfigManager() hands out the one instance, creating it the first time, and always drops the loaded settings, because __init__ clears _initialized before testing it |
| Config.ConfigManager.Settings | cline_utils/dependency_system/utils/config_manager.py:88-123 | the config property loads the file the first time; a missing or unreadable file gives a shallow copy of DEFAULT_CONFIG that shares its sections |
| Config.ConfigManager.UpdateConfig | cline_utils/dependency_system/utils/config_manager.py:203-219 | the loaded settings are merged with the update; the sharing with DEFAULT_CONFIG is tracked, so a shared section changes in both places; the result is what saving reports |
| Config.ConfigManager.ResetToDefaults | cline_utils/dependency_system/utils/config_manager.py:235-243 | reset_to_defaults as written: the settings become DEFAULT_CONFIG and share every section with it |
| Config.ConfigManager.ResetToDefaultsCopy | cline_utils/dependency_system/utils/config_manager.py:235-243 | the evidently intended reset: the settings become a deep copy of DEFAULT_CONFIG and share nothing with it |
| Batches.BatchSizeFor | cline_utils/dependency_system/utils/batch_processor.py:114-123 | always at least 1; a given size s gives max(1, s); the adaptive size never exceeds a non-zero total, and is at least 50 from 1000 items on |
| Batches.CollectAppend | cline_utils/dependency_system/utils/batch_processor.py:61-74 | collecting slice by slice is collecting the whole |
| Batches.CollectMembers | cline_utils/dependency_system/utils/batch_processor.py:125-148 | a value is collected exactly when some item produced it |
| Batches.CollectNoneDropped | cline_utils/dependency_system/utils/batch_processor.py:125-148 | when no item is dropped, the results are the items' results, one for one and in order |
| Batches.BatchProcessor.constructor | cline_utils/dependency_system/utils/batch_processor.py:22-37 | max_workers falls back to twice the CPU count, capped at 32, when it is None or 0; the counters start at 0 |
| Batches.BatchProcessor.ProcessBatch | cline_utils/dependency_system/utils/batch_processor.py:125-148 | one slice's results sit at their items' indices, and the empty ones are dropped |
| Batches.BatchProcessor.RunBatches | cline_utils/dependency_system/utils/batch_processor.py:63-70 | the slice loop covers the items in consecutive slices of the batch size, collects every result in input order and counts every item processed |
| Batches.BatchProcessor.ProcessItems | cline_utils/dependency_system/utils/batch_processor.py:39-74 | the results of all items in input order, with the dropped ones left out; an empty input returns [] without touching processed_items |
| Batches.BatchProcessor.ProcessWithCollector | cline_utils/dependency_system/utils/batch_processor.py:76-112 | the collector applied to the results of all items in input order |
| Batches.ProcessItemsWith | cline_utils/dependency_system/utils/batch_processor.py:169-175 | the module-level process_items gives the same results as a processor's |
| Batches.ProcessWithCollectorWith | cline_utils/dependency_system/utils/batch_processor.py:177-181 | the module-level process_with_collector gives the collector applied to all results |
| PythonImports.Dirname | cline_utils/dependency_system/analysis/dependency_suggester.py:856 | os.path.dirname gives a leading part of the path |
| PythonImports.ClimbInRoot | cline_utils/dependency_system/analysis/dependency_suggester.py:853-861 | a climb that succeeds stays inside the project root and only ever shortens the path |
| PythonImports.ClimbParents | cline_utils/dependency_system/analysis/dependency_suggester.py:853-861 | the loop climbs level - 1 parents, stopping when a parent leaves the project root or does not change |
| PythonImports.CandidatesFor | cline_utils/dependency_system/analysis/dependency_suggester.py:851-898 | the loop generates the candidates of the specification: base.py and base/__init__.py from the climbed directory, or from the project root and each code root |
| PythonImports.ResolvedMeaning | cline_utils/dependency_system/analysis/dependency_suggester.py:900-941 | a relative import yields every tracked candidate once; an absolute one yields at most one, and one exactly when some candidate is tracked |
| PythonImports.CheckCandidates | cline_utils/dependency_system/analysis/dependency_suggester.py:900-941 | the check loop computes the resolution of the specification, returning at the first tracked candidate for an absolute import |
| PythonImports.ConvertPythonImport | cline_utils/dependency_system/analysis/dependency_suggester.py:837-942 | the resolution of the import's candidates against the tracked files |
| PythonImports.LeadingDots | cline_utils/dependency_system/analysis/dependency_suggester.py:958-962 | the count of leading dots is the import's relative level |
| PythonImports.FirstUsable | cline_utils/dependency_system/analysis/dependency_suggester.py:975-991 | the first resolution that is a tracked file other than the source, and none exactly when there is none |
| PythonImports.PythonDepsMembers | cline_utils/dependency_system/analysis/dependency_suggester.py:944-992 | an edge is suggested exactly when some import resolves to its target; every edge is '<' to a tracked file other than the source, each once |
| PythonImports.IdentifyPythonDependencies | cline_utils/dependency_system/analysis/dependency_suggester.py:944-992 | the loop computes the edge list and the raw link records of the specification |
| PythonImports.LongestFromMeaning | cline_utils/dependency_system/analysis/dependency_suggester.py:437-453 | the result is the path of the longest qualifying prefix, and None exactly when no prefix qualifies |
| PythonImports.ResolveNameMeaning | cline_utils/dependency_system/analysis/dependency_suggester.py:427-465 | a non-empty name resolves to the path of its longest qualifying dotted prefix |
| PythonImports.ResolveNameTracked | cline_utils/dependency_system/analysis/dependency_suggester.py:446-453 | a resolved name always names a tracked file |
| PythonImports.ResolveNameToPath | cline_utils/dependency_system/analysis/dependency_suggester.py:427-465 | the loop tries prefixes from the longest down and stops at the first whose import-map path is tracked |
| DocLinks.StripQuotes | cline_utils/dependency_system/analysis/dependency_suggester.py:1242 | strip('\'"') leaves no quote at either end |
| DocLinks.FirstFile | cline_utils/dependency_system/analysis/dependency_suggester.py:1159-1162 | the first candidate that is a tracked file, and none exactly when no candidate is |
| DocLinks.MarkdownTargetSound | cline_utils/dependency_system/analysis/dependency_suggester.py:1137-1164 | an empty link or one with a skipped scheme yields nothing; otherwise only a 'd' on a tracked file other than the source |
| DocLinks.MarkdownFragmentIgnored | cline_utils/dependency_system/analysis/dependency_suggester.py:1140 | a fragment makes no difference to the file a Markdown link names |
| DocLinks.MarkdownQueryIgnored | cline_utils/dependency_system/analysis/dependency_suggester.py:1140 | nor does a query without a fragment |
| DocLinks.MarkdownMembers | cline_utils/dependency_system/analysis/dependency_suggester.py:1127-1165 | a dependency is suggested exactly when some link names its file; it is always 'd' on a tracked file other than the source, and each comes once |
| DocLinks.IdentifyMarkdownDependencies | cline_utils/dependency_system/analysis/dependency_suggester.py:1127-1165 | the loop computes the Markdown dependencies of the specification |
| DocLinks.DocRoots | cline_utils/dependency_system/analysis/dependency_suggester.py:1180-1182 | the documentation roots are never empty: the project root stands in when none is configured |
| DocLinks.UnderDocRoot | cline_utils/dependency_system/analysis/dependency_suggester.py:1193-1201 | a root-relative URL resolves against the first documentation root that gives an in-project file |
| DocLinks.HtmlTargetSound | cline_utils/dependency_system/analysis/dependency_suggester.py:1188-1226 | an empty URL or one with a skipped scheme yields nothing; otherwise only a 'd' on a tracked in-project file other than the source |
| DocLinks.HtmlMembers | cline_utils/dependency_system/analysis/dependency_suggester.py:1167-1227 | a dependency is suggested exactly when some resource URL names its file; it is always 'd' on a tracked in-project file, and each comes once |
| DocLinks.IdentifyHtmlDependencies | cline_utils/dependency_system/analysis/dependency_suggester.py:1167-1227 | the loop over links, scripts, stylesheets and images computes the HTML dependencies of the specification |
| DocLinks.CssMembers | cline_utils/dependency_system/analysis/dependency_suggester.py:1229-1251 | a dependency is suggested exactly when some @import names its file; it is always '<' on a tracked in-project file other than the source, and each comes once |
| DocLinks.CssQuotesIgnored | cline_utils/dependency_system/analysis/dependency_suggester.py:1241-1245 | surrounding quotes make no difference to a CSS import without a scheme |
| DocLinks.IdentifyCssDependencies | cline_utils/dependency_system/analysis/dependency_suggester.py:1229-1251 | the loop computes the CSS dependencies of the specification |
| Suggester.CombineOne | cline_utils/dependency_system/analysis/dependency_suggester.py:819-832 | one pass of the combine loop computes the step of the specification |
| Suggester.CombinePathBased | cline_utils/dependency_system/analysis/dependency_suggester.py:811-834 | the loop computes the combined list of the specification |
| Suggester.CombinedProper | cline_utils/dependency_system/analysis/dependency_suggester.py:820 | a kept target is non-empty, is not the source, and was suggested |
| Suggester.CombinedPriority | cline_utils/dependency_system/analysis/dependency_suggester.py:822-832 | a kept character has a non-negative priority, given that 'x' outranks an equal-priority '<'/'>' pair |
| Suggester.CombinedKept | cline_utils/dependency_system/analysis/dependency_suggester.py:822-827 | a proper target is kept whenever some suggestion of it has a non-negative priority |
| Suggester.CombinedChar | cline_utils/dependency_system/analysis/dependency_suggester.py:824-832 | the kept character was suggested for the target, or is 'x' when both '<' and '>' were |
| Suggester.CombinedHighest | cline_utils/dependency_system/analysis/dependency_suggester.py:822-832 | when 'x' outranks an equal-priority '<'/'>' pair, the kept character has a priority at least that of every suggestion of the target |
| Suggester.CombineShape | cline_utils/dependency_system/analysis/dependency_suggester.py:833 | the combined list names proper targets, each once, with their kept characters |
| Suggester.MergeIntoMutual | cline_utils/dependency_system/analysis/dependency_suggester.py:828-832 | a '<' then a '>' of equal priority for one target combine into a single 'x' |
| Suggester.TieKeepsFirst | cline_utils/dependency_system/analysis/dependency_suggester.py:825-827 | any other equal-priority tie keeps the first character seen |
| Suggester.SemanticChar | cline_utils/dependency_system/analysis/dependency_suggester.py:796-801 | 'S' from the code_similarity threshold up, 's' from the given threshold up to it, and nothing below both |
| Suggester.FileTargets | cline_utils/dependency_system/analysis/dependency_suggester.py:767-770 | the targets are exactly the file records other than the source, in order |
| Suggester.SemanticMembers | cline_utils/dependency_system/analysis/dependency_suggester.py:784-804 | a suggestion is made exactly for a target whose score classifies it, with that character |
| Suggester.SemanticMonotone | cline_utils/dependency_system/analysis/dependency_suggester.py:796-804 | raising the weak threshold only removes suggestions; each one left is made, with the same character, at the lower threshold |
| Suggester.SemanticTargetsFiles | cline_utils/dependency_system/analysis/dependency_suggester.py:763-804 | every semantic suggestion is 'S' or 's', on a file in the key map that is not the source |
| Suggester.SuggestSemantic | cline_utils/dependency_system/analysis/dependency_suggester.py:754-808 | the loop computes the semantic suggestions of the specification |
| Suggester.SuggestPythonDependencies | cline_utils/dependency_system/analysis/dependency_suggester.py:630-680 | the explicit, structural and semantic suggestions are concatenated and combined, as the specification says |
| Suggester.SuggestDependencies | cline_utils/dependency_system/analysis/dependency_suggester.py:164-271 | the dispatch on the file type computes the suggestions of the specification |
| Suggester.SuggestShape | cline_utils/dependency_system/analysis/dependency_suggester.py:164-271 | whatever the file type, each target is named once and is never the file itself or an empty path; only Python files come with AST-verified links |
| Suggester.MarkupChars | cline_utils/dependency_system/analysis/dependency_suggester.py:244-261 | HTML files get only 'd' suggestions and CSS files only '<' |
| KeyInfos.Values | cline_utils/dependency_system/analysis/dependency_suggester.py:768 | path_to_key_info.values() in insertion order, one record per path |
| KeyInfos.FirstWithKey | cline_utils/dependency_system/utils/visualize_dependencies.py:32-33 | next(...) finds the first record with the key string, and None exactly when no record has it |
| KeyInfos.LastWithKey | cline_utils/dependency_system/utils/visualize_dependencies.py:200-208 | the lookup dictionary keeps the last record with the key string, and None exactly when no record has it |
| KeyInfos.OnlyWithKey | cline_utils/dependency_system/utils/visualize_dependencies.py:32-208 | with unique key strings, both lookups find the one record that has the key |
| Visualize.ParentChildIff | cline_utils/dependency_system/utils/visualize_dependencies.py:24-44 | with unique key strings, two keys are a direct parent and child exactly when their records are, in one direction or the other |
| Visualize.ParentChildSymmetric | cline_utils/dependency_system/utils/visualize_dependencies.py:24-44 | the relation does not depend on the order of the two keys |
| Visualize.PairLessTotal | cline_utils/dependency_system/utils/visualize_dependencies.py:124-153 | the order of sorted() on key pairs is total |
| Visualize.HasLeast | cline_utils/dependency_system/utils/visualize_dependencies.py:124-153 | every non-empty set of pairs has a least pair, so the sorted loop can always take the next one |
| Visualize.ConsolidateLinks | cline_utils/dependency_system/utils/visualize_dependencies.py:124-153 | the loop over sorted(non_n_links.items()), skipping a pair already processed, computes the consolidation of the specification |
| Visualize.IntermediateSound | cline_utils/dependency_system/utils/visualize_dependencies.py:124-153 | every consolidated edge stands for its link: an 'x' for an 'x' either way, a '<' for a '<' forward or a '>' backward, any other character for that same link |
| Visualize.IntermediateOnePerPair | cline_utils/dependency_system/utils/visualize_dependencies.py:124-153 | at most one edge joins any two keys |
| Visualize.IntermediateCovers | cline_utils/dependency_system/utils/visualize_dependencies.py:124-153 | every link has an edge between its two keys |
| Visualize.ReverseDropped | cline_utils/dependency_system/utils/visualize_dependencies.py:140-153 | a '<' met first whose reverse is 'd' keeps only the '<': the processed pair is never revisited |
| Visualize.ModuleKeysMembers | cline_utils/dependency_system/utils/visualize_dependencies.py:94-101 | the module scope holds exactly the keys of the records at or below the module's directory |
| Visualize.FoundKeysMembers | cline_utils/dependency_system/utils/visualize_dependencies.py:111-117 | the valid focus keys are exactly the focus keys that name a record |
| Visualize.ModuleScope | cline_utils/dependency_system/utils/visualize_dependencies.py:83-103 | a module view has one focus key naming a directory, and its scope is that key and the keys at or below the directory |
| Visualize.NoValidFocusIff | cline_utils/dependency_system/utils/visualize_dependencies.py:105-121 | the diagram is refused ("No valid focus keys") exactly for several focus keys of which none names a record |
| Visualize.FocusValid | cline_utils/dependency_system/utils/visualize_dependencies.py:105-121 | a focus view names exactly the focus keys that name a record |
| Visualize.DrawnFiltered | cline_utils/dependency_system/utils/visualize_dependencies.py:157-227 | a drawn edge is never 'n' or 'p', never an 'x' between a direct parent and child, never a non-'d' edge between a file and a directory, and both its keys have records |
| Visualize.DrawnFromLinks | cline_utils/dependency_system/utils/visualize_dependencies.py:68-153 | every drawn edge comes from the aggregated links: an 'x' from an 'x' either way, a '<' from a '<' forward or a '>' backward, any other character from that same link |
| Visualize.DrawnFromGrid | cline_utils/dependency_system/utils/visualize_dependencies.py:68-153 | when the aggregated links are the fold of the trackers' grid observations, every drawn edge joins two keys that some grid links, one way or the other |
| Visualize.DrawnInView | cline_utils/dependency_system/utils/visualize_dependencies.py:157-192 | a drawn edge touches the module in a module view and a focus key in a focus view |
| Visualize.DrawnOnePerPair | cline_utils/dependency_system/utils/visualize_dependencies.py:124-227 | two drawn edges never join the same two keys |
| Visualize.ArrowsJoinFiles | cline_utils/dependency_system/utils/visualize_dependencies.py:323-350 | every arrow joins two file nodes of the diagram and comes from a drawn edge |
| Visualize.FocusKeysDrawn | cline_utils/dependency_system/utils/visualize_dependencies.py:231-239 | the valid focus keys are always nodes, even without edges |
| Visualize.ModuleScopeKeys | cline_utils/dependency_system/utils/visualize_dependencies.py:96-101 | the loop gathers the focus key and the module's keys |
| Visualize.ValidFocusKeys | cline_utils/dependency_system/utils/visualize_dependencies.py:111-117 | the loop gathers the focus keys that name a record |
| Visualize.DetermineView | cline_utils/dependency_system/utils/visualize_dependencies.py:83-121 | the scope step computes the view of the specification |
| Visualize.FilterScope | cline_utils/dependency_system/utils/visualize_dependencies.py:157-192 | module and focus views keep the edges with an end in scope; the overview keeps all |
| Visualize.FilterFinal | cline_utils/dependency_system/utils/visualize_dependencies.py:196-227 | the final filter computes the edges of the specification |
| Visualize.DrawArrows | cline_utils/dependency_system/utils/visualize_dependencies.py:323-350 | an arrow for each kept edge between two defined nodes, with the style table's character and the '>' flip |
| Visualize.GenerateMermaidDiagram | cline_utils/dependency_system/utils/visualize_dependencies.py:47-350 | given the aggregated links as an input, the pipeline computes the view, the consolidated and filtered edges, the nodes and the arrows, up to the Mermaid text |
| Visualize.GenerateMermaidDiagramAsWritten | cline_utils/dependency_system/utils/visualize_dependencies.py:16-71 | the generator as written looks the aggregation up on io/tracker_io.py; if it succeeds, its result is the diagram |
| Visualize.MermaidAsWrittenFails | cline_utils/dependency_system/utils/visualize_dependencies.py:68-74 | io/tracker_io.py binds no name aggregate_all_dependencies, so every call ends in AttributeError |

## Findings

| source | as written | input that shows it | evidently intended | confidence | as-written member | corrected member |
|---|---|---|---|---|---|---|
| cline_utils/dependency_system/io/tracker_io.py:262-291 | merge_trackers turns create_initial_grid's dictionary of compressed rows into a list and indexes it with integer positions, so the first lookup raises KeyError and the merge returns None | primary tracker with keys {"1A": "/p"}, secondary tracker empty | a merged grid with one expanded row per merged key, each cell taken from the primary and otherwise from the secondary | not executed | TrackerMerge.MergeAsWrittenFails | TrackerMerge.MergedCellRead |
| cline_utils/dependency_system/core/key_manager.py:177 | process_directory, which takes three parameters, calls itself with four, so the first subdirectory raises TypeError | root /p that holds a subdirectory src | the recursive call with the directory, its key and the next tier | not executed | KeyManager.SubdirectoryCallFails | KeyManager.GeneratedKeysValid |
| cline_utils/dependency_system/core/key_manager.py:224-236 | KEY_PATTERN has groups, so re.findall gives tuples and `p.isdigit()` raises AttributeError for every key | ["1A"] | sorting by the alternating runs of digits and other characters, numbers compared as numbers | not executed | KeyManager.SortKeysFailsOnValidKey | NaturalOrder.NaturalSort |
| cline_utils/dependency_system/io/tracker_io.py:130 | write_tracker_file sorts with sort_keys, so it returns False and writes nothing for any non-empty key map | keys {"1A": "/p"} | the tracker file written in natural key order | not executed | TrackerIO.WriteTrackerFileAsWritten | TrackerIO.WriteThenRead |
| cline_utils/dependency_system/core/dependency_grid.py:200-204 | validate_grid sorts with sort_keys, so it returns False for every grid over valid keys | keys ["1A"], grid {"1A": "o"} | the row, length and diagonal checks over naturally ordered keys | not executed | DependencyGrid.ValidateGridRejectsValidKeys | DependencyGrid.ValidKeysValidateNatural |
| cline_utils/dependency_system/utils/config_manager.py:242 | reset_to_defaults takes a shallow copy of DEFAULT_CONFIG, so a later update of a nested setting writes into DEFAULT_CONFIG itself | reset_to_defaults, then update_config({"thresholds": {"doc_similarity": 0.5}}) | a reset that shares nothing with DEFAULT_CONFIG, which keeps doc_similarity at 0.7 | not executed | Config.ResetSharesDefaults | Config.CopiedResetKeepsDefaults |
| cline_utils/dependency_system/utils/visualize_dependencies.py:71 | generate_mermaid_diagram calls tracker_io.aggregate_all_dependencies, which io/tracker_io.py neither defines nor imports, so every call raises AttributeError | any call, such as focus ["1A"] with any trackers | the aggregation of utils/tracker_utils.py:115, which the diagram is then drawn from | not executed | Visualize.MermaidAsWrittenFails | Visualize.DrawnFromGrid |


## Left out

Parts of the core the model does not capture, with the reason for each:

- PathUtils.EntryExcludes: in an exclusion entry holding `*`, only `*` (any run) and `.` (any character but a newline) are read as regex syntax. Every other character is matched literally, so entries with other regex metacharacters (`?`, `+`, `[...]`, `^`, `$`, `\`, `(`, `|`, `{`) are not modelled, and neither is the `re.error` an ill-formed pattern raises.
- PythonImports.ConvertPythonImport: `list(set(...))` at analysis/dependency_suggester.py:898 becomes `Sequences.Dedup`, which keeps the first occurrence. So an absolute import with several tracked candidates resolves to the first one in candidate order, where Python's set order leaves the choice unspecified. The same holds for the `list(set(...))` the suggesters return at analysis/dependency_suggester.py:628, 992, 1124, 1165, 1227 and 1251: the model keeps the first-occurrence order, while Python's order of the suggestions is unspecified.
- TrackerUtils.AggregateAllDependencies: the tracker paths are a sequence visited in order, where Python iterates a set in an unspecified order. With equal-priority characters, which character a link ends with can depend on that order.
- Text.IsDigit: `\d`, `str.isdigit`, `\w` and IGNORECASE are ASCII-only, and `\s`/`str.isspace` cover only the characters listed in `Text.IsSpace`. Non-ASCII digits, letters and case pairs are not modelled.
- Caches.ExpiryFor: times and TTLs are integers. Python uses floating-point seconds from `time.time()`, and sub-second values are not modelled.
- TrackerEdits.ApplyDeps: a dependency character is a Dafny `char`. A `dep_char` string of any other length, which Python would splice into the row unchecked, is not modelled.
- Visualize.Style: the style is chosen for a single `char`, so a multi-character dependency string is not modelled.
- TrackerMerge.MergeTrackers: the `metadata` entry (`merged_from`, `merge_date`, `file_count`), the optional write to `output_path` and the cache invalidation are not modelled. The early returns for an empty tracker at io/tracker_io.py:252-255 never fire, because read_tracker_file always returns its four fields. So they are not modelled either.
- KeyManager.Chr: code points from 0xD800 up, which a Dafny `char` cannot hold, become U+FFFD. Such letters need more than 55000 roots or subdirectories in one directory.
- Config.Loaded: a configuration file whose top level is JSON but not an object (a list, a number) is not modelled. The file is either missing, unreadable or parsed into a settings object.
- PathUtils.NormalizePath: only POSIX paths are normalised. The Windows case-folding and backslash handling of `os.path.normcase` are not modelled.
- ConfigManager's `config_path` property and `_save_config`: writing the file back is I/O. Its result is a parameter `saved`.
- `get_char_priority`, `get_code_root_directories` and `get_doc_directories` are called on ConfigManager but not defined there. The character priorities, code roots and doc roots are parameters.
- `KeyInfo` and `sort_key_strings_hierarchically` are used by the suggester and the diagram generator but not defined in key_manager.py. `KeyInfos` holds only the fields they read, and the hierarchical sort is a parameter.
- `calculate_similarity` is called with seven arguments but takes three (analysis/dependency_suggester.py:787-791). The similarity score is a parameter.
- The structural Python analysis (`ast` walk and import map), the JavaScript/TypeScript resolution and the generic analysis are parameters. Their results are given as inputs to `Suggester.SuggestDependencies`.
- `get_file_type_for_key` (core/key_manager.py:23-47) is the same extension table as `get_file_type` (`PathUtils.GetFileType`), and nothing in the core calls it.
- `get_relative_path`, `get_project_root`, `find_all_tracker_paths`, `backup_tracker_file` and `export_tracker` are file-system walks, globbing, copies and output formatting.
- The first definition of `update_tracker` (io/tracker_io.py:158-197) is shadowed by the second, which is the one modelled.
- TrackerEdits.UpdateExisting: the `StringIO` buffer is modelled as the string it holds, and `TrackerEdits.Overwrite` gives the effect of `seek(0)` followed by the rewrite without a truncate. The buffer's position, its `close` and the `print` warnings for skipped suggestions are not modelled.
- The `cached` decorator, `file_modified`, `tracker_modified`, `get_tracker_cache_key`, `invalidate_dependent_entries`, `get_file_type_cached`, `get_cache_stats`, `clear_cache`, `check_file_modified` and `CacheManager.cleanup` are not modelled. They build keys by introspection or read file times, or they only forward to members that are modelled. `CacheManager.cleanup` runs only from the decorator.
- Cache persistence (`_save_cache`, `_load_persistent_caches`) is JSON file I/O, and the manager is modelled with persistence off.
- PythonImports.ResolveNameToPath: the memo of earlier answers is not modelled. The source keys it by source path and name on the function object, so it outlives one run. The model recomputes every answer, which differs from the source only when the import map or the tracked files change between runs.
- The thread pool of `_process_batch` is modelled as a sequential map. `_show_progress`, logging, timing and the `datetime` timestamps are output only.
- Visualize.GenerateMermaidDiagram: the aggregated links are a parameter, taken to be the result of `aggregate_all_dependencies` of utils/tracker_utils.py (`TrackerUtils.AggregateAllDependencies`). As written, the source calls it on io/tracker_io.py and fails (see `Visualize.MermaidAsWrittenFails`). The Mermaid text, its subgraphs and the order of its lines are not modelled. The model gives the kept edges and the drawn arrows.
- KeyManager.GenerateKeys: the exclusions are always given. The default of `None`, which the source replaces by ConfigManager's excluded directories and extensions (core/key_manager.py:69-77), is not modelled. The roots are always a sequence, so the wrapping of a single string root into a list (core/key_manager.py:80-81) is not modelled either.
- NaturalOrder.NaturalSort: the contract states an ascending order and a permutation, not stability. Python's `sorted` keeps keys with equal sort keys (such as "a01" and "a1") in their input order. The model's insertion sort puts each key behind the keys it does not sort before, but no lemma states stability.
- Caches.Cache.Invalidate: the key pattern is a parameter `matches` that stands for `re.compile(key_pattern).match`. The `re.error` an invalid pattern raises is not modelled.
- Batches.BatchProcessor.constructor: `max_workers` is kept as given. The `ValueError` that `ThreadPoolExecutor` raises in `_process_batch` for a negative `max_workers` (utils/batch_processor.py:139) is not modelled, since the thread pool is modelled as a sequential map.
