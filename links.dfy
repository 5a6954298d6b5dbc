// How the suggester turns the links found in a markdown, HTML or CSS file
// into dependencies: URLs with a scheme or a fragment-only form are
// skipped, the fragment and the query are cut off, the rest is resolved
// against the file's directory (or, for a root-relative HTML URL, against
// the documentation roots) and must land inside the project on a tracked
// file other than the source.  Markdown and HTML links give `d`, CSS
// `@import`s give `<`.  The file-system tests are parameters.
module DocLinks {
  import opened Outcomes
  import opened Text
  import opened PathUtils
  import opened Sequences
  import PythonImports

  /** What the link rules need to know about the source file and the project. */
  datatype Context = Context(sourcePath: string, projectRoot: string, tracked: set<string>,
                             isFile: string -> bool, isDir: string -> bool, cwd: string)

  /** The directory links are resolved against: os.path.dirname of the normalised source path. */
  function SourceDir(ctx: Context): string { PythonImports.Dirname(ctx.sourcePath) }

  function NormRoot(ctx: Context): string { NormalizePath(ctx.projectRoot, ctx.cwd) }

  // ---------------------------------------------------------------------
  // URL cleaning

  /** The prefixes that make a markdown or HTML URL external or in-page. */
  const LinkSchemes: seq<string> := ["#", "mailto:", "tel:", "http:", "https:", "//", "data:"]

  /** The prefixes that make a CSS `@import` URL external or in-page. */
  const CssSchemes: seq<string> := ["#", "http:", "https:", "//", "data:"]

  /** `url.startswith(schemes)` for a tuple of prefixes. */
  predicate HasScheme(url: string, schemes: seq<string>) {
    exists i | 0 <= i < |schemes| :: StartsWith(url, schemes[i])
  }

  /** `s.split(c)[0]`: everything before the first `c`. */
  function Before(s: string, c: char): string {
    Split(s, [c])[0]
  }

  /** `url.split('#')[0].split('?')[0]`: the URL without fragment and query. */
  function Cleaned(url: string): string {
    Before(Before(url, '#'), '?')
  }

  /**
   * normalize_path(os.path.abspath(os.path.join(dir, rel))).  The join is
   * never empty here, and normalize_path makes a relative path absolute
   * against the working directory exactly as abspath does, so the abspath
   * step adds nothing (PathUtils.NormalizeIdempotent).
   */
  function Resolve(dir: string, rel: string, cwd: string): string {
    NormalizePath(Join2(dir, rel), cwd)
  }

  /** `s.lstrip(c)`. */
  function LStripChar(s: string, c: char): (r: string)
    ensures r == [] || r[0] != c
    decreases |s|
  {
    if s != [] && s[0] == c then LStripChar(s[1..], c) else s
  }

  predicate IsQuote(c: char) { c == '\'' || c == '"' }

  /** `s.strip('\'"')`: quotes removed from both ends. */
  function StripQuotes(s: string): (r: string)
    ensures r == [] || (!IsQuote(r[0]) && !IsQuote(r[|r| - 1]))
    decreases |s|
  {
    if s != [] && IsQuote(s[0]) then StripQuotes(s[1..])
    else if s != [] && IsQuote(s[|s| - 1]) then StripQuotes(s[..|s| - 1])
    else s
  }

  /** The part before the first `c` of a string that has none is the whole string. */
  lemma BeforeNone(s: string, c: char)
    requires NoChar(s, c)
    ensures Before(s, c) == s
  {
    FindNoChar(s, c);
  }

  /** The part before the first `c` of `a + [c] + b`, when `a` has no `c`, is `a`. */
  lemma BeforeFirst(a: string, c: char, b: string)
    requires NoChar(a, c)
    ensures Before(a + [c] + b, c) == a
  {
    SplitCons(a + [c] + b, a, c, b);
  }

  /** No scheme holds `c` after its first character. */
  predicate NoLaterChar(schemes: seq<string>, c: char) {
    forall i, k | 0 <= i < |schemes| && 1 <= k < |schemes[i]| :: schemes[i][k] != c
  }

  /**
   * Appending `c` and anything after a non-empty URL does not change
   * whether it starts with a scheme, when no scheme holds `c` after its
   * first character.
   */
  lemma SchemeOfExtended(url: string, c: char, rest: string, schemes: seq<string>)
    requires url != [] && NoLaterChar(schemes, c)
    ensures HasScheme(url + [c] + rest, schemes) <==> HasScheme(url, schemes)
  {
    var long := url + [c] + rest;
    forall i | 0 <= i < |schemes|
      ensures StartsWith(long, schemes[i]) <==> StartsWith(url, schemes[i])
    {
      var p := schemes[i];
      if |p| <= |url| {
        assert long[..|p|] == url[..|p|];
      } else if |p| <= |long| {
        assert long[..|p|][|url|] == c;
        assert p[|url|] != c;
      }
    }
  }

  lemma LinkSchemesNoMarks()
    ensures NoLaterChar(LinkSchemes, '#') && NoLaterChar(LinkSchemes, '?')
    ensures NoLaterChar(CssSchemes, '#') && NoLaterChar(CssSchemes, '?')
  {
    assert LinkSchemes == ["#", "mailto:", "tel:", "http:", "https:", "//", "data:"];
    assert CssSchemes == ["#", "http:", "https:", "//", "data:"];
  }

  // ---------------------------------------------------------------------
  // Collecting the hits of a list of links

  /** The present values, in order. */
  function Hits<T>(ts: seq<Option<T>>): seq<T>
    decreases |ts|
  {
    if ts == [] then []
    else Hits(ts[..|ts| - 1]) + match ts[|ts| - 1] case Some(x) => [x] case None => []
  }

  lemma {:induction false} HitsMembers<T>(ts: seq<Option<T>>, x: T)
    ensures x in Hits(ts) <==> Some(x) in ts
    decreases |ts|
  {
    if ts != [] {
      var init := ts[..|ts| - 1];
      HitsMembers(init, x);
      assert ts == init + [ts[|ts| - 1]];
    }
  }

  lemma HitsStep<T>(ts: seq<Option<T>>, i: nat)
    requires i < |ts|
    ensures Hits(ts[..i + 1]) == Hits(ts[..i]) + match ts[i] case Some(x) => [x] case None => []
  {
    assert ts[..i + 1][..i] == ts[..i];
  }

  /** The first candidate that is a tracked file. */
  function FirstFile(cands: seq<string>, ctx: Context): (r: Option<string>)
    ensures r.Some? ==> r.value in cands && ctx.isFile(r.value) && r.value in ctx.tracked
    ensures r.None? ==> forall p | p in cands :: !ctx.isFile(p) || p !in ctx.tracked
    decreases |cands|
  {
    if cands == [] then None
    else if ctx.isFile(cands[0]) && cands[0] in ctx.tracked then Some(cands[0])
    else FirstFile(cands[1..], ctx)
  }

  method FindFile(cands: seq<string>, ctx: Context) returns (r: Option<string>)
    ensures r == FirstFile(cands, ctx)
  {
    var i := 0;
    while i < |cands|
      invariant i <= |cands|
      invariant FirstFile(cands[i..], ctx) == FirstFile(cands, ctx)
    {
      if ctx.isFile(cands[i]) && cands[i] in ctx.tracked {
        return Some(cands[i]);
      }
      assert cands[i..][1..] == cands[i + 1..];
      i := i + 1;
    }
    return None;
  }

  // ---------------------------------------------------------------------
  // _identify_markdown_dependencies

  /** The files an in-project markdown link may name: itself, and when it has no extension or is a directory, four more. */
  function MarkdownCandidates(resolved: string, ctx: Context): seq<string> {
    [resolved]
    + if Ext(resolved) == [] || ctx.isDir(resolved) then
        [resolved + ".md", resolved + ".rst",
         NormalizePath(Join2(resolved, "index.md"), ctx.cwd), NormalizePath(Join2(resolved, "README.md"), ctx.cwd)]
      else []
  }

  /** The dependency one markdown link gives, if any. */
  function MarkdownTarget(url: string, ctx: Context): Option<(string, char)> {
    if url == [] || HasScheme(url, LinkSchemes) then None
    else
      var cleaned := Cleaned(url);
      if cleaned == [] || IsAbs(cleaned) then None
      else
        var resolved := Resolve(SourceDir(ctx), cleaned, ctx.cwd);
        if !StartsWith(resolved, NormRoot(ctx)) then None
        else
          match FirstFile(MarkdownCandidates(resolved, ctx), ctx)
          case Some(p) => if p != ctx.sourcePath then Some((p, 'd')) else None
          case None => None
  }

  function MarkdownTargets(links: seq<string>, ctx: Context): (ts: seq<Option<(string, char)>>)
    ensures |ts| == |links| && forall i | 0 <= i < |links| :: ts[i] == MarkdownTarget(links[i], ctx)
  {
    seq(|links|, i requires 0 <= i < |links| => MarkdownTarget(links[i], ctx))
  }

  /** The result of `_identify_markdown_dependencies`, each dependency once. */
  function MarkdownDeps(links: seq<string>, ctx: Context): seq<(string, char)> {
    Dedup(Hits(MarkdownTargets(links, ctx)))
  }

  /**
   * A markdown link yields nothing when it is empty or has a scheme, and
   * otherwise only a `d` on a tracked file other than the source.
   */
  lemma MarkdownTargetSound(url: string, ctx: Context)
    ensures url == [] || HasScheme(url, LinkSchemes) ==> MarkdownTarget(url, ctx) == None
    ensures MarkdownTarget(url, ctx).Some? ==>
              var (p, c) := MarkdownTarget(url, ctx).value;
              c == 'd' && p in ctx.tracked && ctx.isFile(p) && p != ctx.sourcePath
  {
  }

  /** A fragment makes no difference to the file a markdown link names. */
  lemma MarkdownFragmentIgnored(url: string, fragment: string, ctx: Context)
    requires NoChar(url, '#')
    ensures MarkdownTarget(url + "#" + fragment, ctx) == MarkdownTarget(url, ctx)
  {
    if url != [] {
      LinkSchemesNoMarks();
      SchemeOfExtended(url, '#', fragment, LinkSchemes);
      BeforeFirst(url, '#', fragment);
      BeforeNone(url, '#');
    }
  }

  /** Nor does a query without a fragment. */
  lemma MarkdownQueryIgnored(url: string, query: string, ctx: Context)
    requires NoChar(url, '#') && NoChar(url, '?') && NoChar(query, '#')
    ensures MarkdownTarget(url + "?" + query, ctx) == MarkdownTarget(url, ctx)
  {
    if url != [] {
      LinkSchemesNoMarks();
      SchemeOfExtended(url, '?', query, LinkSchemes);
      NoCharConcat(url, "?", '#');
      NoCharConcat(url + "?", query, '#');
      BeforeNone(url + "?" + query, '#');
      BeforeFirst(url, '?', query);
      BeforeNone(url, '#');
      BeforeNone(url, '?');
    }
  }

  /**
   * A dependency is suggested exactly when some link names its file, it is
   * always `d`, and each comes once.
   */
  lemma MarkdownMembers(links: seq<string>, ctx: Context, e: (string, char))
    ensures e in MarkdownDeps(links, ctx) <==> exists i | 0 <= i < |links| :: MarkdownTarget(links[i], ctx) == Some(e)
    ensures e in MarkdownDeps(links, ctx) ==> e.1 == 'd' && e.0 in ctx.tracked && e.0 != ctx.sourcePath
    ensures NoRepeats(MarkdownDeps(links, ctx))
  {
    var ts := MarkdownTargets(links, ctx);
    DedupMembers(Hits(ts));
    HitsMembers(ts, e);
    if Some(e) in ts {
      var i :| 0 <= i < |ts| && ts[i] == Some(e);
      MarkdownTargetSound(links[i], ctx);
    }
  }

  method MarkdownLink(url: string, ctx: Context) returns (r: Option<(string, char)>)
    ensures r == MarkdownTarget(url, ctx)
  {
    if url == [] || HasScheme(url, LinkSchemes) {
      return None;
    }
    var cleaned := Cleaned(url);
    if cleaned == [] || IsAbs(cleaned) {
      return None;
    }
    var resolved := Resolve(SourceDir(ctx), cleaned, ctx.cwd);
    if !StartsWith(resolved, NormRoot(ctx)) {
      return None;
    }
    var found := FindFile(MarkdownCandidates(resolved, ctx), ctx);
    if found.Some? && found.value != ctx.sourcePath {
      return Some((found.value, 'd'));
    }
    return None;
  }

  /** _identify_markdown_dependencies over the `url` of each link (a link without one counts as ""). */
  method IdentifyMarkdownDependencies(links: seq<string>, ctx: Context) returns (deps: seq<(string, char)>)
    ensures deps == MarkdownDeps(links, ctx)
  {
    ghost var ts := MarkdownTargets(links, ctx);
    var found: seq<(string, char)> := [];
    var i := 0;
    while i < |links|
      invariant i <= |links|
      invariant found == Hits(ts[..i])
    {
      var t := MarkdownLink(links[i], ctx);
      HitsStep(ts, i);
      if t.Some? {
        found := found + [t.value];
      }
      i := i + 1;
    }
    assert ts[..i] == ts;
    deps := Dedup(found);
  }

  // ---------------------------------------------------------------------
  // _identify_html_dependencies

  /** The kind of resource an HTML URL was found as. */
  datatype Resource = Link | Script | Style | Image

  /** The URLs to check: links, then scripts, then stylesheets, then images. */
  function HtmlUrls(links: seq<string>, scripts: seq<string>, stylesheets: seq<string>, images: seq<string>)
    : (r: seq<(string, Resource)>)
    ensures |r| == |links| + |scripts| + |stylesheets| + |images|
  {
    seq(|links|, i requires 0 <= i < |links| => (links[i], Link))
    + seq(|scripts|, i requires 0 <= i < |scripts| => (scripts[i], Script))
    + seq(|stylesheets|, i requires 0 <= i < |stylesheets| => (stylesheets[i], Style))
    + seq(|images|, i requires 0 <= i < |images| => (images[i], Image))
  }

  /** The normalised documentation roots, or the project root when none is configured. */
  function DocRoots(docDirs: seq<string>, ctx: Context): (r: seq<string>)
    ensures r != []
  {
    if docDirs == [] then [NormRoot(ctx)]
    else seq(|docDirs|, i requires 0 <= i < |docDirs| => NormalizePath(Join2(NormRoot(ctx), docDirs[i]), ctx.cwd))
  }

  /** Whether a resolved path is an in-project file. */
  predicate InProjectFile(p: string, ctx: Context) {
    StartsWith(p, NormRoot(ctx)) && ctx.isFile(p)
  }

  /** A root-relative URL path resolved against the first documentation root that gives an in-project file. */
  function UnderDocRoot(rel: string, roots: seq<string>, ctx: Context): (r: Option<string>)
    ensures r.Some? ==> InProjectFile(r.value, ctx)
    decreases |roots|
  {
    if roots == [] then None
    else
      var p := Resolve(roots[0], rel, ctx.cwd);
      if InProjectFile(p, ctx) then Some(p) else UnderDocRoot(rel, roots[1..], ctx)
  }

  /**
   * The dependency one HTML URL gives, if any.  Every branch of the
   * character choice at the end assigns `d`, whatever the resource kind
   * and the target's extension, so the kind does not matter.
   */
  function HtmlTarget(url: string, roots: seq<string>, ctx: Context): Option<(string, char)> {
    if url == [] || HasScheme(url, LinkSchemes) then None
    else
      var cleaned := Cleaned(url);
      if cleaned == [] then None
      else
        var resolved :=
          if StartsWith(cleaned, "/") then UnderDocRoot(LStripChar(cleaned, '/'), roots, ctx)
          else
            var p := Resolve(SourceDir(ctx), cleaned, ctx.cwd);
            if InProjectFile(p, ctx) then Some(p) else None;
        match resolved
        case None => None
        case Some(p) =>
          if !StartsWith(p, NormRoot(ctx)) then None
          else if p in ctx.tracked && p != ctx.sourcePath then Some((p, 'd'))
          else None
  }

  function HtmlTargets(urls: seq<(string, Resource)>, roots: seq<string>, ctx: Context): (ts: seq<Option<(string, char)>>)
    ensures |ts| == |urls| && forall i | 0 <= i < |urls| :: ts[i] == HtmlTarget(urls[i].0, roots, ctx)
  {
    seq(|urls|, i requires 0 <= i < |urls| => HtmlTarget(urls[i].0, roots, ctx))
  }

  /** The result of `_identify_html_dependencies`, each dependency once. */
  function HtmlDeps(urls: seq<(string, Resource)>, docDirs: seq<string>, ctx: Context): seq<(string, char)> {
    Dedup(Hits(HtmlTargets(urls, DocRoots(docDirs, ctx), ctx)))
  }

  /** An HTML URL yields nothing when empty or with a scheme, and otherwise only a `d` on a tracked in-project file other than the source. */
  lemma HtmlTargetSound(url: string, roots: seq<string>, ctx: Context)
    ensures url == [] || HasScheme(url, LinkSchemes) ==> HtmlTarget(url, roots, ctx) == None
    ensures HtmlTarget(url, roots, ctx).Some? ==>
              var (p, c) := HtmlTarget(url, roots, ctx).value;
              c == 'd' && p in ctx.tracked && InProjectFile(p, ctx) && p != ctx.sourcePath
  {
  }

  /**
   * A dependency is suggested exactly when some resource URL names its
   * file; it is always `d` on a tracked in-project file, and each comes once.
   */
  lemma HtmlMembers(urls: seq<(string, Resource)>, docDirs: seq<string>, ctx: Context, e: (string, char))
    ensures e in HtmlDeps(urls, docDirs, ctx)
            <==> exists i | 0 <= i < |urls| :: HtmlTarget(urls[i].0, DocRoots(docDirs, ctx), ctx) == Some(e)
    ensures e in HtmlDeps(urls, docDirs, ctx) ==> e.1 == 'd' && e.0 in ctx.tracked && InProjectFile(e.0, ctx) && e.0 != ctx.sourcePath
    ensures NoRepeats(HtmlDeps(urls, docDirs, ctx))
  {
    var roots := DocRoots(docDirs, ctx);
    var ts := HtmlTargets(urls, roots, ctx);
    DedupMembers(Hits(ts));
    HitsMembers(ts, e);
    if Some(e) in ts {
      var i :| 0 <= i < |ts| && ts[i] == Some(e);
      HtmlTargetSound(urls[i].0, roots, ctx);
    }
  }

  method FindUnderDocRoot(rel: string, roots: seq<string>, ctx: Context) returns (r: Option<string>)
    ensures r == UnderDocRoot(rel, roots, ctx)
  {
    var i := 0;
    while i < |roots|
      invariant i <= |roots|
      invariant UnderDocRoot(rel, roots[i..], ctx) == UnderDocRoot(rel, roots, ctx)
    {
      var p := Resolve(roots[i], rel, ctx.cwd);
      if InProjectFile(p, ctx) {
        return Some(p);
      }
      assert roots[i..][1..] == roots[i + 1..];
      i := i + 1;
    }
    return None;
  }

  method HtmlResource(url: string, roots: seq<string>, ctx: Context) returns (r: Option<(string, char)>)
    ensures r == HtmlTarget(url, roots, ctx)
  {
    if url == [] || HasScheme(url, LinkSchemes) {
      return None;
    }
    var cleaned := Cleaned(url);
    if cleaned == [] {
      return None;
    }
    var resolved: Option<string> := None;
    if StartsWith(cleaned, "/") {
      resolved := FindUnderDocRoot(LStripChar(cleaned, '/'), roots, ctx);
    } else {
      var p := Resolve(SourceDir(ctx), cleaned, ctx.cwd);
      if InProjectFile(p, ctx) {
        resolved := Some(p);
      }
    }
    if resolved.None? || !StartsWith(resolved.value, NormRoot(ctx)) {
      return None;
    }
    if resolved.value in ctx.tracked && resolved.value != ctx.sourcePath {
      return Some((resolved.value, 'd'));
    }
    return None;
  }

  /**
   * _identify_html_dependencies over the URLs of the links, scripts,
   * stylesheets and images; the configured documentation directories are
   * a parameter.
   */
  method IdentifyHtmlDependencies(urls: seq<(string, Resource)>, docDirs: seq<string>, ctx: Context)
    returns (deps: seq<(string, char)>)
    ensures deps == HtmlDeps(urls, docDirs, ctx)
  {
    var roots := DocRoots(docDirs, ctx);
    ghost var ts := HtmlTargets(urls, roots, ctx);
    var found: seq<(string, char)> := [];
    var i := 0;
    while i < |urls|
      invariant i <= |urls|
      invariant found == Hits(ts[..i])
    {
      var t := HtmlResource(urls[i].0, roots, ctx);
      HitsStep(ts, i);
      if t.Some? {
        found := found + [t.value];
      }
      i := i + 1;
    }
    assert ts[..i] == ts;
    deps := Dedup(found);
  }

  // ---------------------------------------------------------------------
  // _identify_css_dependencies

  /** The dependency one CSS `@import` URL gives, if any: the quotes are stripped after the scheme test. */
  function CssTarget(url: string, ctx: Context): Option<(string, char)> {
    if url == [] || HasScheme(url, CssSchemes) then None
    else
      var cleaned := Cleaned(StripQuotes(url));
      if cleaned == [] then None
      else
        var p := Resolve(SourceDir(ctx), cleaned, ctx.cwd);
        if !StartsWith(p, NormRoot(ctx)) then None
        else if ctx.isFile(p) && p in ctx.tracked && p != ctx.sourcePath then Some((p, '<'))
        else None
  }

  function CssTargets(imports: seq<string>, ctx: Context): (ts: seq<Option<(string, char)>>)
    ensures |ts| == |imports| && forall i | 0 <= i < |imports| :: ts[i] == CssTarget(imports[i], ctx)
  {
    seq(|imports|, i requires 0 <= i < |imports| => CssTarget(imports[i], ctx))
  }

  /** The result of `_identify_css_dependencies`, each dependency once. */
  function CssDeps(imports: seq<string>, ctx: Context): seq<(string, char)> {
    Dedup(Hits(CssTargets(imports, ctx)))
  }

  /**
   * A dependency is suggested exactly when some `@import` names its file;
   * it is always `<` on a tracked in-project file other than the source,
   * and each comes once.
   */
  lemma CssMembers(imports: seq<string>, ctx: Context, e: (string, char))
    ensures e in CssDeps(imports, ctx) <==> exists i | 0 <= i < |imports| :: CssTarget(imports[i], ctx) == Some(e)
    ensures e in CssDeps(imports, ctx) ==> e.1 == '<' && e.0 in ctx.tracked && InProjectFile(e.0, ctx) && e.0 != ctx.sourcePath
    ensures NoRepeats(CssDeps(imports, ctx))
  {
    var ts := CssTargets(imports, ctx);
    DedupMembers(Hits(ts));
    HitsMembers(ts, e);
  }

  /** Surrounding quotes make no difference to a CSS import that has no scheme either way. */
  lemma CssQuotesIgnored(url: string, ctx: Context)
    requires url != [] && !HasScheme(url, CssSchemes)
    requires !IsQuote(url[0]) && !IsQuote(url[|url| - 1])
    ensures CssTarget("\"" + url + "\"", ctx) == CssTarget(url, ctx)
  {
    var q := "\"" + url + "\"";
    assert StripQuotes(q) == url by {
      var t := url + "\"";
      assert q[1..] == t && t[..|url|] == url && t[0] == url[0];
      assert StripQuotes(q) == StripQuotes(t);
      assert StripQuotes(t) == StripQuotes(url);
    }
    assert !HasScheme(q, CssSchemes) by {
      CssSchemesStart();
      NoSchemeAtFirst(q, CssSchemes);
    }
  }

  lemma CssSchemesStart()
    ensures forall i | 0 <= i < |CssSchemes| :: CssSchemes[i] != [] && CssSchemes[i][0] != '"'
  {
    assert CssSchemes == ["#", "http:", "https:", "//", "data:"];
  }

  /** A string does not start with any scheme whose first character differs from its own. */
  lemma NoSchemeAtFirst(q: string, schemes: seq<string>)
    requires q != [] && forall i | 0 <= i < |schemes| :: schemes[i] != [] && schemes[i][0] != q[0]
    ensures !HasScheme(q, schemes)
  {
    forall i | 0 <= i < |schemes| && |schemes[i]| <= |q|
      ensures q[..|schemes[i]|] != schemes[i]
    {
      assert q[..|schemes[i]|][0] == q[0];
    }
  }

  method CssImport(url: string, ctx: Context) returns (r: Option<(string, char)>)
    ensures r == CssTarget(url, ctx)
  {
    if url == [] || HasScheme(url, CssSchemes) {
      return None;
    }
    var cleaned := Cleaned(StripQuotes(url));
    if cleaned == [] {
      return None;
    }
    var p := Resolve(SourceDir(ctx), cleaned, ctx.cwd);
    if !StartsWith(p, NormRoot(ctx)) {
      return None;
    }
    if ctx.isFile(p) && p in ctx.tracked && p != ctx.sourcePath {
      return Some((p, '<'));
    }
    return None;
  }

  /** _identify_css_dependencies over the `url` of each `@import`. */
  method IdentifyCssDependencies(imports: seq<string>, ctx: Context) returns (deps: seq<(string, char)>)
    ensures deps == CssDeps(imports, ctx)
  {
    ghost var ts := CssTargets(imports, ctx);
    var found: seq<(string, char)> := [];
    var i := 0;
    while i < |imports|
      invariant i <= |imports|
      invariant found == Hits(ts[..i])
    {
      var t := CssImport(imports[i], ctx);
      HitsStep(ts, i);
      if t.Some? {
        found := found + [t.value];
      }
      i := i + 1;
    }
    assert ts[..i] == ts;
    deps := Dedup(found);
  }
}
