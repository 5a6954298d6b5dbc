// Path strings as the dependency system compares them: POSIX
// normalisation against an explicit working directory, joins, extensions,
// sub-path and exclusion tests.
module PathUtils {
  import opened Outcomes
  import opened Text

  const Sep: char := '/'

  predicate IsAbs(p: string) { p != [] && p[0] == Sep }

  // ---------------------------------------------------------------------
  // os.path.join

  /** os.path.join(a, b): an absolute `b` replaces `a`. */
  function Join2(a: string, b: string): string {
    if StartsWith(b, [Sep]) then b
    else if a == [] || EndsWith(a, [Sep]) then a + b
    else a + [Sep] + b
  }

  function JoinAll(base: string, parts: seq<string>): string
    decreases |parts|
  {
    if parts == [] then base else JoinAll(Join2(base, parts[0]), parts[1..])
  }

  // ---------------------------------------------------------------------
  // os.path.normpath (posixpath)

  /** The component rules of normpath, applied left to right onto `acc`. */
  function NormComps(comps: seq<string>, abs: bool, acc: seq<string>): seq<string>
    decreases |comps|
  {
    if comps == [] then acc
    else
      var c := comps[0];
      var next :=
        if c == "" || c == "." then acc
        else if c != ".." || (!abs && acc == []) || (acc != [] && acc[|acc| - 1] == "..") then acc + [c]
        else if acc != [] then acc[..|acc| - 1]
        else acc;
      NormComps(comps[1..], abs, next)
  }

  /** One or two leading slashes are kept; three or more collapse to one. */
  function LeadingSlashes(p: string): nat {
    if !StartsWith(p, "/") then 0
    else if StartsWith(p, "//") && !StartsWith(p, "///") then 2
    else 1
  }

  function NormPath(p: string): (r: string)
    ensures r != []
  {
    if p == [] then "."
    else
      var slashes := LeadingSlashes(p);
      var r := Repeat(Sep, slashes) + Join("/", NormComps(Split(p, "/"), slashes > 0, []));
      if r == [] then "." else r
  }

  /**
   * normalize_path: "" stays ""; a relative path is made absolute against
   * the working directory `cwd` (os.path.abspath, itself a normpath), then
   * normpath is applied.  The lower-casing on Windows is not modelled.
   */
  function NormalizePath(path: string, cwd: string): string {
    if path == [] then []
    else
      var p := if IsAbs(path) then path else NormPath(Join2(cwd, path));
      NormPath(p)
  }

  /** join_paths */
  function JoinPaths(base: string, parts: seq<string>, cwd: string): string {
    NormalizePath(JoinAll(base, parts), cwd)
  }

  // ---------------------------------------------------------------------
  // Idempotence of normpath

  /**
   * The shape of normpath's components: none empty, none ".", none
   * holding a slash, and ".." only as a leading run of a relative path.
   */
  predicate NormalComps(cs: seq<string>, abs: bool) {
    forall i :: 0 <= i < |cs| ==>
      cs[i] != "" && cs[i] != "." && NoChar(cs[i], Sep)
      && (cs[i] == ".." ==> !abs && forall j :: 0 <= j < i ==> cs[j] == "..")
  }

  lemma {:induction false} NormCompsNormal(comps: seq<string>, abs: bool, acc: seq<string>)
    requires NormalComps(acc, abs) && forall w | w in comps :: NoChar(w, Sep)
    ensures NormalComps(NormComps(comps, abs, acc), abs)
    decreases |comps|
  {
    if comps != [] {
      var c := comps[0];
      assert c in comps;
      var next :=
        if c == "" || c == "." then acc
        else if c != ".." || (!abs && acc == []) || (acc != [] && acc[|acc| - 1] == "..") then acc + [c]
        else if acc != [] then acc[..|acc| - 1]
        else acc;
      assert NormalComps(next, abs);
      assert forall w | w in comps[1..] :: w in comps;
      NormCompsNormal(comps[1..], abs, next);
    }
  }

  lemma {:induction false} NormCompsFixed(cs: seq<string>, abs: bool, acc: seq<string>)
    requires NormalComps(acc + cs, abs)
    ensures NormComps(cs, abs, acc) == acc + cs
    decreases |cs|
  {
    if cs != [] {
      var c := cs[0];
      var all := acc + cs;
      assert all[|acc|] == c;
      if c == ".." {
        assert acc == [] || acc[|acc| - 1] == ".." by {
          if acc != [] { assert all[|acc| - 1] == acc[|acc| - 1]; }
        }
      }
      assert acc + [c] + cs[1..] == all;
      NormCompsFixed(cs[1..], abs, acc + [c]);
    }
  }

  lemma NormCompsSkipEmpty(rest: seq<string>, abs: bool)
    ensures NormComps([""] + rest, abs, []) == NormComps(rest, abs, [])
  {
    assert ([""] + rest)[1..] == rest;
  }

  /** The result of normpath is a fixed point of normpath. */
  lemma NormPathIdempotent(p: string)
    ensures NormPath(NormPath(p)) == NormPath(p)
  {
    var r := NormPath(p);
    if p != [] {
      var slashes := LeadingSlashes(p);
      var comps := Split(p, "/");
      SplitNoSep(p, Sep);
      NormCompsNormal(comps, slashes > 0, []);
      var cs := NormComps(comps, slashes > 0, []);
      var body := Join("/", cs);
      NormCompsFixed(cs, slashes > 0, []);
      if Repeat(Sep, slashes) + body == [] {
        NormDot();
      } else {
        NormOfShape(slashes, cs);
      }
    } else {
      NormDot();
    }
  }

  lemma NormDot()
    ensures NormPath(".") == "."
  {
    assert Split(".", "/") == ["."] by { FindNoChar(".", Sep); }
  }

  /** normpath of `k` slashes followed by normal components is itself. */
  lemma NormOfShape(k: nat, cs: seq<string>)
    requires k <= 2 && NormalComps(cs, k > 0)
    requires Repeat(Sep, k) + Join("/", cs) != []
    ensures NormPath(Repeat(Sep, k) + Join("/", cs)) == Repeat(Sep, k) + Join("/", cs)
  {
    var r := Repeat(Sep, k) + Join("/", cs);
    ShapeSlashes(k, cs);
    if cs == [] {
      assert Join("/", cs) == [];
      ShapeNoComps(k);
      assert r == Repeat(Sep, k);
    } else {
      ShapeComps(k, cs);
    }
    NormPathFrom(r, k, cs);
  }

  lemma NormPathFrom(r: string, k: nat, cs: seq<string>)
    requires r != [] && LeadingSlashes(r) == k && NormComps(Split(r, "/"), k > 0, []) == cs
    requires r == Repeat(Sep, k) + Join("/", cs)
    ensures NormPath(r) == r
  {
  }

  /** The shape's leading slashes are exactly its `k` slashes. */
  lemma ShapeSlashes(k: nat, cs: seq<string>)
    requires k <= 2 && NormalComps(cs, k > 0)
    ensures LeadingSlashes(Repeat(Sep, k) + Join("/", cs)) == k
  {
    var body := Join("/", cs);
    var r := Repeat(Sep, k) + body;
    assert forall w | w in cs :: NoChar(w, Sep);
    assert body == [] || body[0] != Sep by {
      if cs != [] { JoinHead(cs, Sep); assert cs[0][0] != Sep; }
    }
    if k == 1 { assert r[..1] == "/"; assert |r| < 2 || r[1] != Sep; }
    if k == 2 { assert r[..2] == "//"; assert |r| < 3 || r[2] != Sep; }
    if k == 0 { assert r == body; }
  }

  /** One or two slashes alone have no components. */
  lemma ShapeNoComps(k: nat)
    requires 0 < k <= 2
    ensures NormComps(Split(Repeat(Sep, k), "/"), true, []) == []
  {
    FindNoChar([], Sep);
    assert Split([], "/") == [[]];
    NormCompsSkipEmpty([], true);
    if k == 1 {
      assert Repeat(Sep, k) == [Sep] + [];
      SplitLeadingSep([], Sep);
      assert Split(Repeat(Sep, k), "/") == [""] + [""];
      NormCompsSkipEmpty([""], true);
    } else {
      assert Repeat(Sep, k) == [Sep] + [Sep];
      SplitLeadingSep([Sep], Sep);
      SplitLeadingSep([], Sep);
      assert Split(Repeat(Sep, k), "/") == [""] + ([""] + [""]);
      NormCompsSkipEmpty([""], true);
      NormCompsSkipEmpty([""] + [""], true);
    }
  }

  /** The components of the shape are read back unchanged. */
  lemma ShapeComps(k: nat, cs: seq<string>)
    requires k <= 2 && NormalComps(cs, k > 0) && cs != []
    ensures NormComps(Split(Repeat(Sep, k) + Join("/", cs), "/"), k > 0, []) == cs
  {
    var body := Join("/", cs);
    var r := Repeat(Sep, k) + body;
    var split := Split(r, "/");
    assert forall w | w in cs :: NoChar(w, Sep);
    SplitJoin(cs, Sep);
    assert Split(body, "/") == cs;
    NormCompsFixed(cs, k > 0, []);
    assert [] + cs == cs;
    if k == 1 {
      assert r == [Sep] + body;
      SplitLeadingSep(body, Sep);
      assert split == [""] + cs;
      NormCompsSkipEmpty(cs, true);
    } else if k == 2 {
      assert r == [Sep] + ([Sep] + body);
      SplitLeadingSep([Sep] + body, Sep);
      SplitLeadingSep(body, Sep);
      assert split == [""] + ([""] + cs);
      NormCompsSkipEmpty([""] + cs, true);
      NormCompsSkipEmpty(cs, true);
    } else {
      assert r == body;
    }
  }

  /** normalize_path("") is "", and normalising a normalised path changes nothing. */
  lemma NormalizeIdempotent(path: string, cwd: string)
    requires IsAbs(cwd)
    ensures NormalizePath("", cwd) == ""
    ensures NormalizePath(NormalizePath(path, cwd), cwd) == NormalizePath(path, cwd)
  {
    if path != [] {
      var p := if IsAbs(path) then path else NormPath(Join2(cwd, path));
      assert IsAbs(p) by {
        if !IsAbs(path) {
          var j := Join2(cwd, path);
          assert IsAbs(j);
          NormPathKeepsAbs(j);
        }
      }
      NormPathKeepsAbs(p);
      NormPathIdempotent(p);
    }
  }

  /** A normalised absolute path has the shape of one or two slashes and normal components. */
  lemma NormalShape(dir: string) returns (k: nat, cs: seq<string>)
    requires IsAbs(dir) && NormPath(dir) == dir
    ensures 1 <= k <= 2 && NormalComps(cs, true) && dir == Repeat(Sep, k) + Join("/", cs)
  {
    k := LeadingSlashes(dir);
    var comps := Split(dir, "/");
    SplitNoSep(dir, Sep);
    NormCompsNormal(comps, true, []);
    cs := NormComps(comps, true, []);
  }

  /** A path made of normal components after its slashes ends in a slash only when it has no component. */
  lemma ShapeEnd(k: nat, cs: seq<string>)
    requires NormalComps(cs, true) && cs != []
    ensures var p := Repeat(Sep, k) + Join("/", cs); p != [] && p[|p| - 1] != Sep
  {
    var l := cs[|cs| - 1];
    var init := cs[..|cs| - 1];
    assert cs == init + [l];
    var j := Join("/", cs);
    if init != [] {
      JoinSnoc("/", init, l);
    }
    assert j[|j| - |l|..] == l;
    assert l[|l| - 1] != Sep;
  }

  lemma NormalCompsSnoc(cs: seq<string>, name: string)
    requires NormalComps(cs, true) && PlainName(name)
    ensures NormalComps(cs + [name], true)
  {
    var all := cs + [name];
    assert forall i | 0 <= i < |cs| :: all[i] == cs[i];
  }

  lemma RepeatSep(k: nat)
    requires k >= 1
    ensures Repeat(Sep, k) != [] && Repeat(Sep, k)[0] == Sep && Repeat(Sep, k)[k - 1] == Sep
  {
  }

  /** A plain name joined onto the shape adds one component. */
  lemma ShapeJoinName(k: nat, cs: seq<string>, name: string)
    requires 1 <= k && NormalComps(cs, true) && PlainName(name)
    ensures Join2(Repeat(Sep, k) + Join("/", cs), name) == Repeat(Sep, k) + Join("/", cs + [name])
  {
    var dir := Repeat(Sep, k) + Join("/", cs);
    assert name[0] != Sep && name[..1] == [name[0]];
    assert !StartsWith(name, [Sep]);
    RepeatSep(k);
    if cs == [] {
      assert Join("/", cs) == [];
      assert cs + [name] == [name];
      assert Join("/", [name]) == name;
      assert dir == Repeat(Sep, k);
      assert EndsWith(dir, [Sep]);
    } else {
      ShapeEnd(k, cs);
      JoinSnoc("/", cs, name);
      assert !EndsWith(dir, [Sep]);
    }
  }

  /**
   * A normalised absolute directory joined with a plain file name needs no
   * further normalisation.
   */
  lemma NormJoinName(dir: string, name: string)
    requires IsAbs(dir) && NormPath(dir) == dir && PlainName(name)
    ensures IsAbs(Join2(dir, name)) && NormPath(Join2(dir, name)) == Join2(dir, name)
  {
    var k, cs := NormalShape(dir);
    ShapeJoinName(k, cs, name);
    NormalCompsSnoc(cs, name);
    RepeatSep(k);
    NormOfShape(k, cs + [name]);
  }

  /**
   * join_paths(join_paths(base, part), name) for a plain file name: the
   * directory is absolute and normalised, and the file is directly in it,
   * already normalised.
   */
  lemma JoinedFile(base: string, part: string, name: string, cwd: string)
    ensures IsAbs(cwd) && PlainName(name) && Join2(base, part) != [] ==>
            var dir := JoinPaths(base, [part], cwd);
            var r := JoinPaths(dir, [name], cwd);
            IsAbs(dir) && NormalizePath(dir, cwd) == dir
            && r == Join2(dir, name) && NormalizePath(r, cwd) == r
  {
    if IsAbs(cwd) && PlainName(name) && Join2(base, part) != [] {
      var p := Join2(base, part);
      assert JoinAll(base, [part]) == p;
      var dir := NormalizePath(p, cwd);
      var q := if IsAbs(p) then p else NormPath(Join2(cwd, p));
      assert IsAbs(q) by {
        if !IsAbs(p) {
          NormPathKeepsAbs(Join2(cwd, p));
        }
      }
      NormPathKeepsAbs(q);
      NormPathIdempotent(q);
      NormalizeIdempotent(p, cwd);
      assert JoinAll(dir, [name]) == Join2(dir, name);
      NormJoinName(dir, name);
    }
  }

  lemma NormPathKeepsAbs(p: string)
    requires IsAbs(p)
    ensures IsAbs(NormPath(p))
  {
    var slashes := LeadingSlashes(p);
    assert slashes >= 1;
    var r := Repeat(Sep, slashes) + Join("/", NormComps(Split(p, "/"), true, []));
    assert r[0] == Sep;
  }

  // ---------------------------------------------------------------------
  // os.path.splitext and get_file_type

  /** The position of the last occurrence of `c`, or -1 (str.rfind). */
  function RFind(s: string, c: char): (r: int)
    ensures -1 <= r < |s|
    ensures r >= 0 ==> s[r] == c
    ensures forall j :: r < j < |s| ==> s[j] != c
    decreases |s|
  {
    if s == [] then -1
    else if s[|s| - 1] == c then |s| - 1
    else RFind(s[..|s| - 1], c)
  }

  /**
   * The extension of splitext: from the last dot, provided the dot lies in
   * the last component and is preceded there by a character other than a dot.
   */
  function Ext(p: string): (e: string)
    ensures e == [] || (e[0] == '.' && EndsWith(p, e) && NoChar(e, Sep) && NoChar(e[1..], '.'))
  {
    var sepIndex, dotIndex := RFind(p, Sep), RFind(p, '.');
    if dotIndex > sepIndex && exists i :: sepIndex + 1 <= i < dotIndex && p[i] != '.' then
      var e := p[dotIndex..];
      assert forall j :: 0 <= j < |e| ==> e[j] == p[dotIndex + j];
      e
    else []
  }

  /** get_file_type (and key_manager's get_file_type_for_key, which is the same code). */
  function GetFileType(path: string): string {
    FileTypeOfExt(ToLower(Ext(path)))
  }

  /** The file type named by a lower-cased extension. */
  function FileTypeOfExt(e: string): string {
    if e == ".py" then "py"
    else if e == ".js" || e == ".ts" || e == ".jsx" || e == ".tsx" then "js"
    else if e == ".md" || e == ".rst" then "md"
    else if e == ".html" || e == ".htm" then "html"
    else if e == ".css" then "css"
    else "generic"
  }

  lemma LowerKeepsRFind(p: string, c: char)
    requires !IsUpper(c) && !IsLower(c)
    ensures RFind(ToLower(p), c) == RFind(p, c)
    decreases |p|
  {
    if p != [] {
      assert ToLower(p)[..|p| - 1] == ToLower(p[..|p| - 1]);
      assert ToLower(p)[|p| - 1] == c <==> p[|p| - 1] == c;
      LowerKeepsRFind(p[..|p| - 1], c);
    }
  }

  lemma ToLowerIdempotent(s: string)
    ensures ToLower(ToLower(s)) == ToLower(s)
  {
  }

  /** Lower-casing a path lower-cases its extension: case never moves the dot. */
  lemma ExtLower(p: string)
    ensures Ext(ToLower(p)) == ToLower(Ext(p))
  {
    var lp := ToLower(p);
    LowerKeepsRFind(p, Sep);
    LowerKeepsRFind(p, '.');
    var sepIndex, dotIndex := RFind(p, Sep), RFind(p, '.');
    LowerKeepsDots(p, sepIndex + 1, dotIndex);
    if dotIndex > sepIndex && exists i :: sepIndex + 1 <= i < dotIndex && p[i] != '.' {
      LowerSuffix(p, dotIndex);
    }
  }

  lemma LowerKeepsDots(p: string, lo: int, hi: int)
    requires 0 <= lo && hi <= |p|
    ensures (exists i :: lo <= i < hi && p[i] != '.') <==> (exists i :: lo <= i < hi && ToLower(p)[i] != '.')
  {
    assert forall i :: 0 <= i < |p| ==> (ToLower(p)[i] == '.' <==> p[i] == '.');
  }

  lemma LowerSuffix(p: string, k: nat)
    requires k <= |p|
    ensures ToLower(p[k..]) == ToLower(p)[k..]
  {
  }

  /** Upper- and lower-case spellings of a path have the same file type. */
  lemma FileTypeCaseInsensitive(path: string)
    ensures GetFileType(ToLower(path)) == GetFileType(path)
  {
    ExtLower(path);
    ToLowerIdempotent(Ext(path));
    SameFileType(ToLower(Ext(ToLower(path))), ToLower(Ext(path)));
  }

  lemma SameFileType(e: string, e': string)
    requires e == e'
    ensures FileTypeOfExt(e) == FileTypeOfExt(e')
  {
  }

  /** Appending ".py" to a name ending in an ordinary character gives a Python file. */
  lemma FileTypeOfPythonName(base: string)
    requires base != [] && base[|base| - 1] != Sep && base[|base| - 1] != '.'
    ensures GetFileType(base + ".py") == "py"
  {
    ExtAppended(base, "py");
    assert "." + "py" == ".py";
    assert ToLower(".py") == ".py";
  }

  /** resolve_relative_path: normpath of the join; the default extension when none. */
  function ResolveRelativePath(sourceDir: string, relativePath: string, defaultExt: string): string
  {
    var resolved := NormPath(Join2(sourceDir, relativePath));
    if Ext(resolved) == [] then resolved + defaultExt else resolved
  }

  /**
   * A resolved path that already has an extension is left alone; one
   * without an extension whose last component ends in an ordinary character
   * ends up with exactly the default extension.
   */
  lemma ResolvedExtension(sourceDir: string, relativePath: string, e: string)
    requires e != [] && NoChar(e, Sep) && NoChar(e, '.')
    ensures var n := NormPath(Join2(sourceDir, relativePath));
            var r := ResolveRelativePath(sourceDir, relativePath, "." + e);
            (Ext(n) != [] ==> r == n)
            && (Ext(n) == [] && n[|n| - 1] != Sep && n[|n| - 1] != '.' ==> Ext(r) == "." + e)
  {
    var n := NormPath(Join2(sourceDir, relativePath));
    if Ext(n) == [] && n[|n| - 1] != Sep && n[|n| - 1] != '.' {
      ExtAppended(n, e);
    }
  }

  lemma ExtAppended(n: string, e: string)
    requires n != [] && n[|n| - 1] != Sep && n[|n| - 1] != '.'
    requires e != [] && NoChar(e, Sep) && NoChar(e, '.')
    ensures Ext(n + ("." + e)) == "." + e
  {
    var p := n + "." + e;
    assert p == n + ("." + e);
    RFindSuffix(n + ".", e, '.');
    RFindSuffix(n + ".", e, Sep);
    RFindSuffix(n, ".", Sep);
    assert RFind(n + ".", '.') == |n| by { assert (n + ".")[..|n|] == n; }
    assert p[|n| - 1] == n[|n| - 1];
    assert p[|n|..] == "." + e;
  }

  /** The last `c` of `a + b` is the last of `a` when `b` holds none. */
  lemma {:induction false} RFindSuffix(a: string, b: string, c: char)
    requires NoChar(b, c)
    ensures RFind(a + b, c) == RFind(a, c)
    decreases |b|
  {
    if b != [] {
      assert (a + b)[..|a + b| - 1] == a + b[..|b| - 1];
      RFindSuffix(a, b[..|b| - 1], c);
    } else {
      assert a + b == a;
    }
  }

  // ---------------------------------------------------------------------
  // is_subpath

  /**
   * is_subpath on normalised paths: the parent is a prefix of the path, and
   * unless the parent ends in a separator the rest begins with one.
   */
  predicate SubpathOf(np: string, nq: string) {
    StartsWith(np, nq) && (EndsWith(nq, [Sep]) || StartsWith(np[|nq|..], [Sep]))
  }

  /** is_subpath: both paths are normalised first. */
  predicate IsSubpath(path: string, parent: string, cwd: string) {
    SubpathOf(NormalizePath(path, cwd), NormalizePath(parent, cwd))
  }

  /**
   * For a parent that does not end in a separator, being a subpath means
   * being the parent followed by a separator and more: "/a/bc" is not under
   * "/a/b", and no such path is a subpath of itself.
   */
  lemma SubpathBoundary(np: string, nq: string)
    requires !EndsWith(nq, [Sep])
    ensures SubpathOf(np, nq) <==> exists rest :: np == nq + [Sep] + rest
    ensures !SubpathOf(nq, nq)
  {
    if SubpathOf(np, nq) {
      assert np == nq + [Sep] + np[|nq| + 1..];
    }
    if exists rest :: np == nq + [Sep] + rest {
      var rest :| np == nq + [Sep] + rest;
      assert np[..|nq|] == nq;
      assert np[|nq|..][..1] == [Sep];
    }
    assert nq[|nq|..] == [];
  }

  predicate PlainName(x: string) { x != "" && x != "." && x != ".." && NoChar(x, Sep) }

  /**
   * Below "/x/y": "/x/y/z" is a subpath, while "/x/yz", which merely starts
   * with the same characters, is not.
   */
  lemma SubpathExample(x: string, y: string, z: string, cwd: string)
    requires PlainName(x) && PlainName(y) && PlainName(z) && PlainName(y + z)
    ensures IsSubpath("/" + x + "/" + y + "/" + z, "/" + x + "/" + y, cwd)
    ensures !IsSubpath("/" + x + "/" + y + z, "/" + x + "/" + y, cwd)
  {
    var parent, child, sibling := "/" + x + "/" + y, "/" + x + "/" + y + "/" + z, "/" + x + "/" + y + z;
    NormOfShapeExample(x, y);
    NormOfShapeExample(x, y + z);
    NormOfShapeExample3(x, y, z);
    assert sibling == "/" + x + "/" + (y + z);
    assert NormalizePath(parent, cwd) == parent;
    assert NormalizePath(child, cwd) == child;
    assert NormalizePath(sibling, cwd) == sibling;
    assert parent[|parent| - 1] == y[|y| - 1];
    SubpathBoundary(child, parent);
    SubpathBoundary(sibling, parent);
    assert child == parent + [Sep] + z;
    assert sibling[..|parent|] == parent;
    assert sibling[|parent|] == z[0];
    assert !StartsWith(sibling[|parent|..], [Sep]);
  }

  lemma NormOfShapeExample(x: string, y: string)
    requires x != "" && x != "." && x != ".." && NoChar(x, Sep)
    requires y != "" && y != "." && y != ".." && NoChar(y, Sep)
    ensures NormPath("/" + x + "/" + y) == "/" + x + "/" + y
  {
    assert [x, y][1..] == [y];
    assert Join("/", [y]) == y;
    assert Join("/", [x, y]) == x + "/" + y;
    assert NormalComps([x, y], true);
    assert Repeat(Sep, 1) == "/";
    assert Repeat(Sep, 1) + Join("/", [x, y]) == "/" + x + "/" + y;
    NormOfShape(1, [x, y]);
  }

  lemma NormOfShapeExample3(x: string, y: string, z: string)
    requires x != "" && x != "." && x != ".." && NoChar(x, Sep)
    requires y != "" && y != "." && y != ".." && NoChar(y, Sep)
    requires z != "" && z != "." && z != ".." && NoChar(z, Sep)
    ensures NormPath("/" + x + "/" + y + "/" + z) == "/" + x + "/" + y + "/" + z
  {
    assert [x, y, z][1..] == [y, z] && [y, z][1..] == [z];
    assert Join("/", [z]) == z;
    assert Join("/", [y, z]) == y + "/" + z;
    assert Join("/", [x, y, z]) == x + "/" + (y + "/" + z);
    assert NormalComps([x, y, z], true);
    assert Repeat(Sep, 1) == "/";
    assert Repeat(Sep, 1) + Join("/", [x, y, z]) == "/" + x + "/" + y + "/" + z;
    NormOfShape(1, [x, y, z]);
  }

  // ---------------------------------------------------------------------
  // is_path_excluded

  /** An exclusion entry holding '*' read as a regex after '*' -> '.*'. */
  datatype Token = Lit(c: char) | AnyChar | AnyRun

  function GlobTokens(pattern: string): (r: seq<Token>)
    ensures |r| == |pattern|
  {
    seq(|pattern|, i requires 0 <= i < |pattern| =>
      if pattern[i] == '*' then AnyRun else if pattern[i] == '.' then AnyChar else Lit(pattern[i]))
  }

  /** The tokens match a prefix of `s` ('.' does not match a newline). */
  predicate MatchesPrefix(toks: seq<Token>, s: string)
    decreases |s|, |toks|
  {
    if toks == [] then true
    else match toks[0]
      case AnyRun => MatchesPrefix(toks[1..], s) || (s != [] && s[0] != '\n' && MatchesPrefix(toks, s[1..]))
      case AnyChar => s != [] && s[0] != '\n' && MatchesPrefix(toks[1..], s[1..])
      case Lit(c) => s != [] && s[0] == c && MatchesPrefix(toks[1..], s[1..])
  }

  /** re.search: a match starts somewhere in `s`. */
  predicate Search(toks: seq<Token>, s: string) {
    exists i | 0 <= i <= |s| :: MatchesPrefix(toks, s[i..])
  }

  predicate EntryExcludes(normPath: string, excluded: string, cwd: string) {
    if Contains(excluded, "*") then Search(GlobTokens(excluded), normPath)
    else StartsWith(normPath, NormalizePath(excluded, cwd)) || normPath == NormalizePath(excluded, cwd)
  }

  function AnyEntryExcludes(normPath: string, excluded: seq<string>, cwd: string): (r: bool)
    ensures r <==> exists i :: 0 <= i < |excluded| && EntryExcludes(normPath, excluded[i], cwd)
    decreases |excluded|
  {
    if excluded == [] then false
    else EntryExcludes(normPath, excluded[0], cwd) || AnyEntryExcludes(normPath, excluded[1..], cwd)
  }

  /** is_path_excluded: some entry excludes the normalised path. */
  function IsPathExcluded(path: string, excluded: seq<string>, cwd: string): (r: bool)
    ensures excluded == [] ==> !r
    ensures r <==> exists i :: 0 <= i < |excluded| && EntryExcludes(NormalizePath(path, cwd), excluded[i], cwd)
  {
    if excluded == [] then false else AnyEntryExcludes(NormalizePath(path, cwd), excluded, cwd)
  }

  /** A plain entry excludes by string prefix, across component boundaries. */
  lemma PrefixExclusion(path: string, excluded: string, cwd: string)
    requires !Contains(excluded, "*")
    requires StartsWith(NormalizePath(path, cwd), NormalizePath(excluded, cwd))
    ensures IsPathExcluded(path, [excluded], cwd)
  {
  }

  lemma StarMatchesAll(s: string)
    ensures MatchesPrefix([AnyRun], s)
  {
  }

  /** An entry made of '*' alone excludes every path. */
  lemma StarExcludesAll(path: string, cwd: string)
    ensures IsPathExcluded(path, ["*"], cwd)
  {
    assert At("*", "*", 0);
    var n := NormalizePath(path, cwd);
    assert GlobTokens("*") == [AnyRun];
    StarMatchesAll(n);
    assert n[0..] == n;
  }

  // ---------------------------------------------------------------------
  // get_common_path (os.path.commonpath)

  /** The components commonpath compares: no empty and no "." entries. */
  function Parts(p: string): seq<string> {
    Filter(Split(p, "/"))
  }

  function Filter(cs: seq<string>): (r: seq<string>)
    ensures forall w | w in r :: w in cs && w != "" && w != "."
    decreases |cs|
  {
    if cs == [] then []
    else if cs[0] == "" || cs[0] == "." then Filter(cs[1..])
    else [cs[0]] + Filter(cs[1..])
  }

  /** The longest common prefix of two component lists. */
  function CommonPrefix(a: seq<string>, b: seq<string>): (r: seq<string>)
    ensures |r| <= |a| && |r| <= |b| && r == a[..|r|] && r == b[..|r|]
    ensures |r| < |a| && |r| < |b| ==> a[|r|] != b[|r|]
    decreases |a|
  {
    if a == [] || b == [] || a[0] != b[0] then []
    else
      var t := CommonPrefix(a[1..], b[1..]);
      assert a[..1 + |t|] == [a[0]] + a[1..][..|t|];
      assert b[..1 + |t|] == [b[0]] + b[1..][..|t|];
      [a[0]] + t
  }

  function CommonOfAll(first: seq<string>, rest: seq<seq<string>>): (r: seq<string>)
    ensures |r| <= |first| && r == first[..|r|]
    ensures forall q | q in rest :: |r| <= |q| && r == q[..|r|]
    decreases |rest|
  {
    if rest == [] then first
    else
      var c := CommonPrefix(first, rest[0]);
      var r := CommonOfAll(c, rest[1..]);
      assert forall q | q in rest[1..] :: q in rest;
      r
  }

  /** normalize_path applied to every path. */
  function NormalizeAll(paths: seq<string>, cwd: string): (r: seq<string>)
    ensures |r| == |paths| && forall i :: 0 <= i < |paths| ==> r[i] == NormalizePath(paths[i], cwd)
  {
    seq(|paths|, i requires 0 <= i < |paths| => NormalizePath(paths[i], cwd))
  }

  /** Any list that begins both lists begins their common prefix. */
  lemma CommonPrefixLongest(a: seq<string>, b: seq<string>, p: seq<string>)
    requires p <= a && p <= b
    ensures p <= CommonPrefix(a, b)
  {
    var r := CommonPrefix(a, b);
    if |p| > |r| {
      assert false;
    }
    assert p == a[..|p|];
  }

  /** Any list that begins `first` and every list of `rest` begins their common prefix. */
  lemma {:induction false} CommonOfAllLongest(first: seq<string>, rest: seq<seq<string>>, p: seq<string>)
    requires p <= first && forall q | q in rest :: p <= q
    ensures p <= CommonOfAll(first, rest)
    decreases |rest|
  {
    if rest != [] {
      assert rest[0] in rest;
      CommonPrefixLongest(first, rest[0], p);
      assert forall q | q in rest[1..] :: q in rest;
      CommonOfAllLongest(CommonPrefix(first, rest[0]), rest[1..], p);
    }
  }

  /** The component lists of the normalised paths. */
  function PartsAll(paths: seq<string>, cwd: string): (r: seq<seq<string>>)
    ensures |r| == |paths| && forall i :: 0 <= i < |paths| ==> r[i] == Parts(NormalizePath(paths[i], cwd))
  {
    var norm := NormalizeAll(paths, cwd);
    seq(|norm|, i requires 0 <= i < |norm| => Parts(norm[i]))
  }

  /** The leading components every normalised path shares. */
  function CommonParts(paths: seq<string>, cwd: string): (r: seq<string>)
    requires paths != []
    ensures forall i :: 0 <= i < |paths| ==> r <= Parts(NormalizePath(paths[i], cwd))
  {
    var parts := PartsAll(paths, cwd);
    assert forall i :: 1 <= i < |parts| ==> parts[i] in parts[1..];
    CommonOfAll(parts[0], parts[1..])
  }

  /** The shared components are the longest: every list of components all paths begin with begins them. */
  lemma CommonPartsLongest(paths: seq<string>, cwd: string, p: seq<string>)
    requires paths != []
    requires forall i :: 0 <= i < |paths| ==> p <= Parts(NormalizePath(paths[i], cwd))
    ensures p <= CommonParts(paths, cwd)
  {
    var parts := PartsAll(paths, cwd);
    forall q | q in parts[1..] ensures p <= q {
      var k :| 0 <= k < |parts[1..]| && parts[1..][k] == q;
      assert q == parts[k + 1];
    }
    CommonOfAllLongest(parts[0], parts[1..], p);
  }

  /**
   * get_common_path: "" for no paths or for a mix of absolute and relative
   * paths (commonpath's ValueError); otherwise the common leading
   * components of the normalised paths, rooted when they are absolute.
   * commonpath compares only the lexicographically least and greatest
   * component lists, which share exactly the prefix all lists share; the
   * model takes the common prefix of all lists directly.
   */
  function GetCommonPath(paths: seq<string>, cwd: string): (r: string)
    ensures paths == [] ==> r == ""
    ensures (exists i, j :: 0 <= i < |paths| && 0 <= j < |paths|
               && IsAbs(NormalizePath(paths[i], cwd)) != IsAbs(NormalizePath(paths[j], cwd))) ==> r == ""
    ensures paths != [] && (forall i :: 0 <= i < |paths| ==> IsAbs(NormalizePath(paths[i], cwd)))
            ==> r != [] && r[0] == Sep
    ensures paths != [] && (forall i :: 0 <= i < |paths| ==> IsAbs(NormalizePath(paths[i], cwd)) == IsAbs(NormalizePath(paths[0], cwd)))
            ==> r == (if IsAbs(NormalizePath(paths[0], cwd)) then "/" else "") + Join("/", CommonParts(paths, cwd))
  {
    if paths == [] then ""
    else
      var norm := NormalizeAll(paths, cwd);
      var abs := IsAbs(norm[0]);
      if exists i :: 0 <= i < |norm| && IsAbs(norm[i]) != abs then ""
      else (if abs then "/" else "") + Join("/", CommonParts(paths, cwd))
  }
}
