// utils/visualize_dependencies.py: which edges and nodes the Mermaid
// diagram generator keeps.  The aggregated links are consolidated into at
// most one edge per pair of keys, narrowed to the module, focus or
// overview scope, and filtered for placeholders, structural parent-child
// `x` links and file/directory mismatches; the kept edges are drawn as
// arrows between the file nodes.  The Mermaid text itself, its subgraphs
// and its ordering are not part of this model.
module Visualize {
  import opened Outcomes
  import opened Text
  import opened Dicts
  import opened KeyInfos
  import PathUtils
  import NaturalOrder
  import TrackerUtils

  // ---------------------------------------------------------------------
  // _is_direct_parent_child_key_relationship

  /** The parent path of `child` is set, not empty, and names `parent`'s path, both normalised. */
  predicate ParentOf(parent: KeyInfo, child: KeyInfo, cwd: string) {
    child.parentPath.Some? && child.parentPath.value != []
    && PathUtils.NormalizePath(parent.normPath, cwd) == PathUtils.NormalizePath(child.parentPath.value, cwd)
  }

  /** The first record of either key is the direct parent of the first record of the other. */
  predicate IsDirectParentChild(k1: string, k2: string, infos: seq<KeyInfo>, cwd: string) {
    var a := FirstWithKey(infos, k1);
    var b := FirstWithKey(infos, k2);
    a.Some? && b.Some? && (ParentOf(a.value, b.value, cwd) || ParentOf(b.value, a.value, cwd))
  }

  /**
   * With unique key strings: two keys are a direct parent and child
   * exactly when their records are, in one direction or the other.
   */
  lemma ParentChildIff(k1: string, k2: string, infos: seq<KeyInfo>, cwd: string)
    requires UniqueKeys(infos)
    ensures IsDirectParentChild(k1, k2, infos, cwd)
            <==> exists a, b | a in infos && b in infos :: a.keyString == k1 && b.keyString == k2
                                                          && (ParentOf(a, b, cwd) || ParentOf(b, a, cwd))
  {
    if exists a, b | a in infos && b in infos :: a.keyString == k1 && b.keyString == k2
                                                 && (ParentOf(a, b, cwd) || ParentOf(b, a, cwd)) {
      var a, b :| a in infos && b in infos && a.keyString == k1 && b.keyString == k2
                  && (ParentOf(a, b, cwd) || ParentOf(b, a, cwd));
      OnlyWithKey(infos, k1, a);
      OnlyWithKey(infos, k2, b);
    }
  }

  /** The relation does not depend on the order of the two keys. */
  lemma ParentChildSymmetric(k1: string, k2: string, infos: seq<KeyInfo>, cwd: string)
    ensures IsDirectParentChild(k1, k2, infos, cwd) == IsDirectParentChild(k2, k1, infos, cwd)
  {
  }

  // ---------------------------------------------------------------------
  // Python's `<` on (source, target) pairs

  type Pair = (string, string)

  predicate PairLess(p: Pair, q: Pair) {
    NaturalOrder.TextLess(p.0, q.0) || (p.0 == q.0 && NaturalOrder.TextLess(p.1, q.1))
  }

  lemma {:induction false} TextLessTotal(a: string, b: string)
    requires a != b
    ensures NaturalOrder.TextLess(a, b) || NaturalOrder.TextLess(b, a)
    decreases |a|
  {
    if a != [] && b != [] && a[0] == b[0] {
      assert a == [a[0]] + a[1..] && b == [b[0]] + b[1..];
      TextLessTotal(a[1..], b[1..]);
    }
  }

  lemma TextLessAsymmetric(a: string, b: string)
    ensures !(NaturalOrder.TextLess(a, b) && NaturalOrder.TextLess(b, a))
  {
    if NaturalOrder.TextLess(a, b) && NaturalOrder.TextLess(b, a) {
      NaturalOrder.TextLessTransitive(a, b, a);
      NaturalOrder.TextLessIrreflexive(a);
    }
  }

  lemma PairLessIrreflexive(p: Pair)
    ensures !PairLess(p, p)
  {
    NaturalOrder.TextLessIrreflexive(p.0);
    NaturalOrder.TextLessIrreflexive(p.1);
  }

  lemma PairLessAsymmetric(p: Pair, q: Pair)
    ensures !(PairLess(p, q) && PairLess(q, p))
  {
    TextLessAsymmetric(p.0, q.0);
    TextLessAsymmetric(p.1, q.1);
    NaturalOrder.TextLessIrreflexive(p.0);
  }

  lemma PairLessTransitive(p: Pair, q: Pair, r: Pair)
    requires PairLess(p, q) && PairLess(q, r)
    ensures PairLess(p, r)
  {
    if NaturalOrder.TextLess(p.0, q.0) && NaturalOrder.TextLess(q.0, r.0) {
      NaturalOrder.TextLessTransitive(p.0, q.0, r.0);
    } else if p.0 == q.0 && q.0 == r.0 {
      NaturalOrder.TextLessTransitive(p.1, q.1, r.1);
    }
  }

  lemma PairLessTotal(p: Pair, q: Pair)
    requires p != q
    ensures PairLess(p, q) || PairLess(q, p)
  {
    if p.0 != q.0 {
      TextLessTotal(p.0, q.0);
    } else {
      TextLessTotal(p.1, q.1);
    }
  }

  /** No pair of `s` is below `m`. */
  predicate Least(s: set<Pair>, m: Pair) {
    forall q | q in s :: !PairLess(q, m)
  }

  lemma LeastOfOne(x: Pair)
    ensures Least({x}, x)
  {
    PairLessIrreflexive(x);
  }

  lemma LeastBelow(rest: set<Pair>, x: Pair, m: Pair)
    requires Least(rest, m) && PairLess(x, m)
    ensures Least(rest + {x}, x)
  {
    forall q | q in rest + {x}
      ensures !PairLess(q, x)
    {
      if q == x {
        PairLessIrreflexive(x);
      } else if PairLess(q, x) {
        PairLessTransitive(q, x, m);
      }
    }
  }

  /** A non-empty set of pairs has a least element. */
  lemma {:induction false} HasLeast(s: set<Pair>)
    requires s != {}
    ensures exists m | m in s :: Least(s, m)
    decreases |s|
  {
    var x :| x in s;
    var rest := s - {x};
    if rest == {} {
      assert s == {x};
      LeastOfOne(x);
    } else {
      HasLeast(rest);
      var m :| m in rest && Least(rest, m);
      assert s == rest + {x};
      if PairLess(x, m) {
        LeastBelow(rest, x, m);
      } else {
        assert Least(s, m);
      }
    }
  }

  // ---------------------------------------------------------------------
  // generate_mermaid_diagram, step 2: one edge per pair of keys

  datatype Edge = Edge(from: string, to: string, dep: char)

  /** consolidated_directed_links: the winning character of each aggregated link. */
  function Directed(agg: TrackerUtils.Links): map<Pair, char> {
    map k | k in agg :: agg[k].0
  }

  /** non_n_links. */
  function NonN(links: map<Pair, char>): map<Pair, char> {
    map k | k in links && links[k] != 'n' :: links[k]
  }

  function Reverse(k: Pair): Pair { (k.1, k.0) }

  /** `tuple(sorted((source, target)))`, the marker of a processed pair. */
  function Unordered(k: Pair): Pair {
    if NaturalOrder.TextLess(k.1, k.0) then Reverse(k) else k
  }

  function Lookup(links: map<Pair, char>, k: Pair): Option<char> {
    if k in links then Some(links[k]) else None
  }

  /**
   * The edge recorded for a link met first of its pair: `x` when either
   * direction is `x`, a `<`/`>` pair as one `<` from the side that relies,
   * otherwise the link's own character.
   */
  function PairEdge(k: Pair, forward: char, reverse: Option<char>): Edge {
    if forward == 'x' || reverse == Some('x') then Edge(k.0, k.1, 'x')
    else if forward == '<' && reverse == Some('>') then Edge(k.0, k.1, '<')
    else if forward == '>' && reverse == Some('<') then Edge(k.1, k.0, '<')
    else Edge(k.0, k.1, forward)
  }

  function EdgeOf(links: map<Pair, char>, k: Pair): Edge
    requires k in links
  {
    PairEdge(k, links[k], Lookup(links, Reverse(k)))
  }

  /** In sorted order, link `k` is met before its reverse, or its reverse is not a link. */
  predicate MetFirst(links: map<Pair, char>, k: Pair) {
    !(Reverse(k) in links && PairLess(Reverse(k), k))
  }

  /** The edges recorded for the links of `done`. */
  function EdgesOf(links: map<Pair, char>, done: set<Pair>): set<Edge>
    requires done <= links.Keys
  {
    set k | k in done && MetFirst(links, k) :: EdgeOf(links, k)
  }

  /** intermediate_edges, as a set. */
  function Intermediate(links: map<Pair, char>): set<Edge> {
    EdgesOf(links, links.Keys)
  }

  lemma UnorderedReverse(k: Pair)
    ensures Unordered(Reverse(k)) == Unordered(k)
  {
    if k.0 != k.1 {
      TextLessTotal(k.0, k.1);
      TextLessAsymmetric(k.0, k.1);
    }
  }

  lemma UnorderedSame(d: Pair, k: Pair)
    requires Unordered(d) == Unordered(k)
    ensures d == k || d == Reverse(k)
  {
  }

  /** An edge joins the two keys of the link it was recorded for. */
  lemma EdgeEnds(links: map<Pair, char>, k: Pair)
    requires k in links
    ensures Unordered((EdgeOf(links, k).from, EdgeOf(links, k).to)) == Unordered(k)
  {
    UnorderedReverse(k);
  }

  /** The loop skips a link exactly when it is not met first of its pair. */
  lemma SkipsReverse(links: map<Pair, char>, done: set<Pair>, rest: set<Pair>, k: Pair)
    requires rest + done == links.Keys && rest !! done && k in rest
    requires Below(done, rest) && Least(rest, k)
    ensures Unordered(k) in Markers(done) <==> !MetFirst(links, k)
  {
    if Unordered(k) in Markers(done) {
      var d :| d in done && Unordered(d) == Unordered(k);
      UnorderedSame(d, k);
    }
    if !MetFirst(links, k) {
      assert Reverse(k) in done;
      UnorderedReverse(k);
    }
  }

  /** Every pair of `done` is below every pair of `rest`: the sorted loop has met `done` first. */
  predicate Below(done: set<Pair>, rest: set<Pair>) {
    forall d, r | d in done && r in rest :: PairLess(d, r)
  }

  /** The markers of the pairs processed so far. */
  function Markers(done: set<Pair>): set<Pair> {
    set d | d in done :: Unordered(d)
  }

  lemma EdgesOfAdd(links: map<Pair, char>, done: set<Pair>, k: Pair)
    requires done <= links.Keys && k in links && k !in done
    ensures EdgesOf(links, done + {k})
            == EdgesOf(links, done) + (if MetFirst(links, k) then {EdgeOf(links, k)} else {})
  {
  }

  /** One link of the sorted loop: the least one not yet met. */
  method ConsolidateStep(links: map<Pair, char>, done: set<Pair>, rest: set<Pair>, processed: set<Pair>,
                         edges: set<Edge>, k: Pair)
    returns (processed': set<Pair>, edges': set<Edge>)
    requires rest + done == links.Keys && rest !! done && k in rest
    requires Below(done, rest) && Least(rest, k)
    requires processed == Markers(done)
    requires edges == EdgesOf(links, done)
    ensures processed' == Markers(done + {k})
    ensures edges' == EdgesOf(links, done + {k})
  {
    SkipsReverse(links, done, rest, k);
    EdgesOfAdd(links, done, k);
    processed', edges' := processed, edges;
    if Unordered(k) !in processed {
      var reverse := if Reverse(k) in links then Some(links[Reverse(k)]) else None;
      edges' := edges + {PairEdge(k, links[k], reverse)};
      processed' := processed + {Unordered(k)};
    }
  }

  /** The least link is below every link left after it. */
  lemma LeastBelowRest(done: set<Pair>, rest: set<Pair>, k: Pair)
    requires k in rest && Below(done, rest) && Least(rest, k)
    ensures Below(done + {k}, rest - {k})
  {
    forall r | r in rest - {k}
      ensures PairLess(k, r)
    {
      PairLessTotal(k, r);
    }
  }

  /**
   * The loop over `sorted(non_n_links.items())`, taking the least link
   * left each time; a pair already processed is skipped.
   */
  method ConsolidateLinks(links: map<Pair, char>) returns (edges: set<Edge>)
    ensures edges == Intermediate(links)
  {
    edges := {};
    var processed: set<Pair> := {};
    var done: set<Pair> := {};
    var rest := links.Keys;
    while rest != {}
      invariant rest + done == links.Keys && rest !! done
      invariant Below(done, rest)
      invariant processed == Markers(done)
      invariant edges == EdgesOf(links, done)
      decreases |rest|
    {
      HasLeast(rest);
      var k :| k in rest && Least(rest, k);
      processed, edges := ConsolidateStep(links, done, rest, processed, edges, k);
      LeastBelowRest(done, rest, k);
      done := done + {k};
      rest := rest - {k};
    }
  }

  /**
   * Every recorded edge stands for its link: an `x` edge for an `x` in
   * either direction, a `<` for a `<` forward or a `>` backward, any
   * other character for that very link.
   */
  lemma IntermediateSound(links: map<Pair, char>, e: Edge)
    requires e in Intermediate(links)
    ensures e.dep == 'x' ==> Lookup(links, (e.from, e.to)) == Some('x') || Lookup(links, (e.to, e.from)) == Some('x')
    ensures e.dep != 'x' ==> Lookup(links, (e.from, e.to)) == Some(e.dep)
                             || (e.dep == '<' && Lookup(links, (e.to, e.from)) == Some('>'))
  {
    var k :| k in links && MetFirst(links, k) && EdgeOf(links, k) == e;
  }

  /** At most one edge joins any two keys. */
  lemma IntermediateOnePerPair(links: map<Pair, char>, e1: Edge, e2: Edge)
    requires e1 in Intermediate(links) && e2 in Intermediate(links)
    requires Unordered((e1.from, e1.to)) == Unordered((e2.from, e2.to))
    ensures e1 == e2
  {
    var k1 :| k1 in links && MetFirst(links, k1) && EdgeOf(links, k1) == e1;
    var k2 :| k2 in links && MetFirst(links, k2) && EdgeOf(links, k2) == e2;
    EdgeEnds(links, k1);
    EdgeEnds(links, k2);
    UnorderedSame(k2, k1);
    if k2 != k1 {
      PairLessTotal(k1, k2);
    }
  }

  /** Every link has an edge between its two keys. */
  lemma IntermediateCovers(links: map<Pair, char>, k: Pair)
    requires k in links
    ensures exists e | e in Intermediate(links) :: Unordered((e.from, e.to)) == Unordered(k)
  {
    if MetFirst(links, k) {
      EdgeEnds(links, k);
      assert EdgeOf(links, k) in Intermediate(links);
    } else {
      var r := Reverse(k);
      PairLessAsymmetric(r, k);
      assert MetFirst(links, r);
      EdgeEnds(links, r);
      UnorderedReverse(k);
      assert EdgeOf(links, r) in Intermediate(links);
    }
  }

  /**
   * A link whose reverse has another character that does not pair with it
   * keeps only the character met first: the reverse `d` of a `<` is
   * dropped, as the processed pair is never revisited.
   */
  lemma ReverseDropped(links: map<Pair, char>, k: Pair)
    requires k in links && Reverse(k) in links && k.0 != k.1 && MetFirst(links, k)
    requires links[k] == '<' && links[Reverse(k)] == 'd'
    ensures Edge(k.0, k.1, '<') in Intermediate(links)
    ensures forall e | e in Intermediate(links) && Unordered((e.from, e.to)) == Unordered(k) :: e.dep == '<'
  {
    assert EdgeOf(links, k) == Edge(k.0, k.1, '<');
    forall e | e in Intermediate(links) && Unordered((e.from, e.to)) == Unordered(k)
      ensures e.dep == '<'
    {
      EdgeEnds(links, k);
      IntermediateOnePerPair(links, e, Edge(k.0, k.1, '<'));
    }
  }

  // ---------------------------------------------------------------------
  // Step 1 and 3: the scope of the focus keys

  /** Module view with the focus key and the keys in scope; focus view with the valid focus keys; overview. */
  datatype View = Module(focusKey: string, scope: set<string>) | Focus(valid: set<string>) | Overview

  /** focus_keys_valid. */
  function ValidOf(view: View): set<string> {
    match view
    case Module(f, _) => {f}
    case Focus(valid) => valid
    case Overview => {}
  }

  /** The record is the module directory itself or lies below it. */
  predicate InModule(info: KeyInfo, dir: string) {
    info.normPath == dir || StartsWith(info.normPath, dir + "/")
  }

  /** The keys of the records in the module. */
  function ModuleKeys(infos: seq<KeyInfo>, dir: string): set<string>
    decreases |infos|
  {
    if infos == [] then {}
    else
      var last := infos[|infos| - 1];
      ModuleKeys(infos[..|infos| - 1], dir) + (if InModule(last, dir) then {last.keyString} else {})
  }

  lemma {:induction false} ModuleKeysMembers(infos: seq<KeyInfo>, dir: string, k: string)
    ensures k in ModuleKeys(infos, dir) <==> exists info | info in infos :: InModule(info, dir) && info.keyString == k
    decreases |infos|
  {
    if infos != [] {
      var init := infos[..|infos| - 1];
      ModuleKeysMembers(init, dir, k);
      assert infos == init + [infos[|infos| - 1]];
    }
  }

  /** The focus keys that name a record. */
  function FoundKeys(focus: seq<string>, infos: seq<KeyInfo>): set<string>
    decreases |focus|
  {
    if focus == [] then {}
    else
      var last := focus[|focus| - 1];
      FoundKeys(focus[..|focus| - 1], infos) + (if FirstWithKey(infos, last).Some? then {last} else {})
  }

  lemma {:induction false} FoundKeysMembers(focus: seq<string>, infos: seq<KeyInfo>, k: string)
    ensures k in FoundKeys(focus, infos) <==> k in focus && FirstWithKey(infos, k).Some?
    decreases |focus|
  {
    if focus != [] {
      var init := focus[..|focus| - 1];
      FoundKeysMembers(init, infos, k);
      assert focus == init + [focus[|focus| - 1]];
    }
  }

  /**
   * The view chosen by the focus list: one directory key gives its module,
   * one file key a focus on it, an unknown single key the overview; several
   * keys focus on the ones found, or fail (None) when none is found.
   */
  function ViewOf(focus: seq<string>, infos: seq<KeyInfo>): Option<View> {
    if |focus| == 1 then
      var info := FirstWithKey(infos, focus[0]);
      if info.Some? && info.value.isDirectory then Some(Module(focus[0], {focus[0]} + ModuleKeys(infos, info.value.normPath)))
      else if info.Some? then Some(Focus({focus[0]}))
      else Some(Overview)
    else if |focus| > 1 then
      var valid := FoundKeys(focus, infos);
      if valid == {} then None else Some(Focus(valid))
    else Some(Overview)
  }

  /** Module view: keep an edge with an end in the module; focus view: with an end at a focus key. */
  predicate InView(e: Edge, view: View) {
    match view
    case Module(_, scope) => e.from in scope || e.to in scope
    case Focus(valid) => e.from in valid || e.to in valid
    case Overview => true
  }

  function Scoped(edges: set<Edge>, view: View): set<Edge> {
    set e | e in edges && InView(e, view)
  }

  /** A module view holds the focus key and the keys of exactly the records at or below its directory. */
  lemma ModuleScope(focus: seq<string>, infos: seq<KeyInfo>, k: string)
    requires ViewOf(focus, infos).Some? && ViewOf(focus, infos).value.Module?
    ensures var view := ViewOf(focus, infos).value;
            var dir := FirstWithKey(infos, focus[0]).value.normPath;
            |focus| == 1 && view.focusKey == focus[0] && FirstWithKey(infos, focus[0]).value.isDirectory
            && (k in view.scope <==> k == focus[0] || exists info | info in infos :: InModule(info, dir) && info.keyString == k)
  {
    ModuleKeysMembers(infos, FirstWithKey(infos, focus[0]).value.normPath, k);
  }

  /** The diagram is refused exactly for several focus keys none of which names a record. */
  lemma NoValidFocusIff(focus: seq<string>, infos: seq<KeyInfo>)
    ensures ViewOf(focus, infos).None? <==> |focus| > 1 && forall f | f in focus :: FirstWithKey(infos, f).None?
  {
    if |focus| > 1 {
      if forall f | f in focus :: FirstWithKey(infos, f).None? {
        forall k | k in FoundKeys(focus, infos)
          ensures false
        {
          FoundKeysMembers(focus, infos, k);
        }
      } else {
        var f :| f in focus && FirstWithKey(infos, f).Some?;
        FoundKeysMembers(focus, infos, f);
      }
    }
  }

  /** A focus view names exactly the focus keys that name a record. */
  lemma FocusValid(focus: seq<string>, infos: seq<KeyInfo>, k: string)
    requires ViewOf(focus, infos).Some?
    ensures k in ValidOf(ViewOf(focus, infos).value) <==> k in focus && FirstWithKey(infos, k).Some?
  {
    if |focus| > 1 {
      FoundKeysMembers(focus, infos, k);
    }
  }

  // ---------------------------------------------------------------------
  // Step 4: the final filter

  /**
   * An edge is drawn unless it is a placeholder `p`, one of its keys has no
   * record (the dictionary by key string, where the last record wins), it
   * is a structural `x` between a direct parent and child, or it joins a
   * file and a directory without being a `d`.
   */
  predicate Kept(e: Edge, infos: seq<KeyInfo>, cwd: string) {
    var i1 := LastWithKey(infos, e.from);
    var i2 := LastWithKey(infos, e.to);
    e.dep != 'p' && i1.Some? && i2.Some?
    && !(e.dep == 'x' && IsDirectParentChild(e.from, e.to, infos, cwd))
    && (e.dep != 'd' ==> i1.value.isDirectory == i2.value.isDirectory)
  }

  function Final(edges: set<Edge>, infos: seq<KeyInfo>, cwd: string): set<Edge> {
    set e | e in edges && Kept(e, infos, cwd)
  }

  // ---------------------------------------------------------------------
  // Steps 5 to 7: the nodes and the arrows

  /** final_relevant_keys_for_nodes: the ends of the kept edges and the valid focus keys. */
  function Nodes(edges: set<Edge>, valid: set<string>): set<string> {
    (set e | e in edges :: e.from) + (set e | e in edges :: e.to) + valid
  }

  /** A key whose record (the last with that key) is a file: only files get a node box. */
  predicate IsFileNode(k: string, infos: seq<KeyInfo>) {
    LastWithKey(infos, k).Some? && !LastWithKey(infos, k).value.isDirectory
  }

  /** defined_mermaid_nodes. */
  function Defined(nodes: set<string>, infos: seq<KeyInfo>): set<string> {
    set k | k in nodes && IsFileNode(k, infos)
  }

  datatype Arrow = Arrow(from: string, to: string, style: string, caption: string)

  /** dep_char_to_style, with `-->` and the character itself for any other character. */
  function Style(c: char): (string, string) {
    if c == '<' then ("-->", "relies on")
    else if c == '>' then ("-->", "required by")
    else if c == 'x' then ("<-->", "mutual")
    else if c == 'd' then ("-.->", "docs")
    else if c == 's' then ("-.->", "semantic (weak)")
    else if c == 'S' then ("==>", "semantic (strong)")
    else ("-->", [c])
  }

  /** The arrow of an edge; a `>` is drawn from its target to its source. */
  function ArrowOf(e: Edge): Arrow {
    var (style, caption) := Style(e.dep);
    if e.dep == '>' then Arrow(e.to, e.from, style, caption) else Arrow(e.from, e.to, style, caption)
  }

  function Arrows(edges: set<Edge>, defined: set<string>): set<Arrow> {
    set e | e in edges && e.from in defined && e.to in defined :: ArrowOf(e)
  }

  /**
   * The result of generate_mermaid_diagram: the error for a multi-key
   * focus without a valid key, the "no relevant data" diagram, or the
   * nodes, the kept edges and the arrows drawn.
   */
  datatype Diagram = NoValidFocus | NoData | Drawn(nodes: set<string>, edges: set<Edge>, arrows: set<Arrow>)

  function Visualized(focus: seq<string>, keyInfo: Dict<KeyInfo>, agg: TrackerUtils.Links, cwd: string): Diagram
    requires Valid(keyInfo)
  {
    var infos := Values(keyInfo);
    match ViewOf(focus, infos)
    case None => NoValidFocus
    case Some(view) =>
      var edges := Final(Scoped(Intermediate(NonN(Directed(agg))), view), infos, cwd);
      var nodes := Nodes(edges, ValidOf(view));
      if nodes == {} then NoData else Drawn(nodes, edges, Arrows(edges, Defined(nodes, infos)))
  }

  // ---------------------------------------------------------------------
  // What the diagram shows

  /**
   * No drawn edge is a `n` or a placeholder `p`, a structural `x` between a
   * direct parent and child, or a non-`d` edge between a file and a
   * directory, and both its keys have records.
   */
  lemma DrawnFiltered(focus: seq<string>, keyInfo: Dict<KeyInfo>, agg: TrackerUtils.Links, cwd: string, e: Edge)
    requires Valid(keyInfo)
    requires Visualized(focus, keyInfo, agg, cwd).Drawn? && e in Visualized(focus, keyInfo, agg, cwd).edges
    ensures var infos := Values(keyInfo);
            e.dep != 'n' && e.dep != 'p'
            && LastWithKey(infos, e.from).Some? && LastWithKey(infos, e.to).Some?
            && !(e.dep == 'x' && IsDirectParentChild(e.from, e.to, infos, cwd))
            && (e.dep != 'd' ==> LastWithKey(infos, e.from).value.isDirectory == LastWithKey(infos, e.to).value.isDirectory)
  {
    var links := NonN(Directed(agg));
    IntermediateSound(links, e);
  }

  /** The link of a pair in the aggregated links, with its winning character. */
  predicate AggregatedAs(agg: TrackerUtils.Links, from: string, to: string, c: char) {
    (from, to) in agg && agg[(from, to)].0 == c
  }

  /**
   * Every drawn edge comes from the aggregated links: an `x` from an `x`
   * in either direction, a `<` from a `<` forward or a `>` backward, any
   * other character from that very link.
   */
  lemma DrawnFromLinks(focus: seq<string>, keyInfo: Dict<KeyInfo>, agg: TrackerUtils.Links, cwd: string, e: Edge)
    requires Valid(keyInfo)
    requires Visualized(focus, keyInfo, agg, cwd).Drawn? && e in Visualized(focus, keyInfo, agg, cwd).edges
    ensures e.dep == 'x' ==> AggregatedAs(agg, e.from, e.to, 'x') || AggregatedAs(agg, e.to, e.from, 'x')
    ensures e.dep != 'x' ==> AggregatedAs(agg, e.from, e.to, e.dep) || (e.dep == '<' && AggregatedAs(agg, e.to, e.from, '>'))
  {
    IntermediateSound(NonN(Directed(agg)), e);
  }

  /**
   * The aggregated links are what the trackers' grids hold: when they are
   * the fold of the observations `obs`, each drawn edge joins two keys
   * that some grid links, in one direction or the other.
   */
  lemma DrawnFromGrid(focus: seq<string>, keyInfo: Dict<KeyInfo>, obs: seq<TrackerUtils.Observation>,
                      priority: char -> Option<int>, cwd: string, e: Edge)
    requires Valid(keyInfo) && TrackerUtils.NonNegative(priority)
    requires var agg := TrackerUtils.Fold(map[], obs, priority);
             Visualized(focus, keyInfo, agg, cwd).Drawn? && e in Visualized(focus, keyInfo, agg, cwd).edges
    ensures exists i :: TrackerUtils.Seen(obs, (e.from, e.to), priority, i) || TrackerUtils.Seen(obs, (e.to, e.from), priority, i)
  {
    var agg := TrackerUtils.Fold(map[], obs, priority);
    DrawnFromLinks(focus, keyInfo, agg, cwd, e);
    TrackerUtils.Aggregated(obs, (e.from, e.to), priority);
    TrackerUtils.Aggregated(obs, (e.to, e.from), priority);
  }

  /**
   * The names io/tracker_io.py binds at its top level: its imports, its
   * logger and the functions it defines.  aggregate_all_dependencies is
   * not among them; utils/tracker_utils.py defines it.
   */
  const TrackerIONames: set<string> := {
    "datetime", "io", "json", "os", "re", "shutil",
    "Dict", "List", "Tuple", "Any", "Optional", "Set", "defaultdict",
    "get_key_from_path", "sort_keys", "normalize_path", "ConfigManager",
    "cached", "check_file_modified", "invalidate_dependent_entries", "tracker_modified",
    "compress", "create_initial_grid", "decompress", "validate_grid",
    "logging", "logger",
    "get_tracker_path", "read_tracker_file", "write_tracker_file", "update_tracker",
    "backup_tracker_file", "merge_trackers", "_read_existing_keys", "_read_existing_grid",
    "_write_key_definitions", "_write_grid", "export_tracker", "remove_file_from_tracker"
  }

  /**
   * generate_mermaid_diagram as written: the links are looked up as
   * tracker_io.aggregate_all_dependencies, an attribute the module does
   * not have, before anything else is computed.
   */
  function GenerateMermaidDiagramAsWritten(focus: seq<string>, keyInfo: Dict<KeyInfo>, agg: TrackerUtils.Links, cwd: string)
    : (r: Result<Diagram>)
    requires Valid(keyInfo)
    ensures r.Ok? ==> r.value == Visualized(focus, keyInfo, agg, cwd)
  {
    if "aggregate_all_dependencies" in TrackerIONames then Ok(Visualized(focus, keyInfo, agg, cwd))
    else Err(AttributeError)
  }

  /** Every call of the diagram generator as written ends in an AttributeError. */
  lemma MermaidAsWrittenFails(focus: seq<string>, keyInfo: Dict<KeyInfo>, agg: TrackerUtils.Links, cwd: string)
    requires Valid(keyInfo)
    ensures GenerateMermaidDiagramAsWritten(focus, keyInfo, agg, cwd) == Err(AttributeError)
  {
  }

  /** A drawn edge touches the module in a module view and a focus key in a focus view. */
  lemma DrawnInView(focus: seq<string>, keyInfo: Dict<KeyInfo>, agg: TrackerUtils.Links, cwd: string, e: Edge)
    requires Valid(keyInfo)
    requires Visualized(focus, keyInfo, agg, cwd).Drawn? && e in Visualized(focus, keyInfo, agg, cwd).edges
    ensures ViewOf(focus, Values(keyInfo)).Some? && InView(e, ViewOf(focus, Values(keyInfo)).value)
  {
  }

  /** Two drawn edges never join the same two keys. */
  lemma DrawnOnePerPair(focus: seq<string>, keyInfo: Dict<KeyInfo>, agg: TrackerUtils.Links, cwd: string, e1: Edge, e2: Edge)
    requires Valid(keyInfo)
    requires var r := Visualized(focus, keyInfo, agg, cwd); r.Drawn? && e1 in r.edges && e2 in r.edges
    requires Unordered((e1.from, e1.to)) == Unordered((e2.from, e2.to))
    ensures e1 == e2
  {
    IntermediateOnePerPair(NonN(Directed(agg)), e1, e2);
  }

  /** Every arrow joins two file nodes of the diagram: directories are never connected. */
  lemma ArrowsJoinFiles(focus: seq<string>, keyInfo: Dict<KeyInfo>, agg: TrackerUtils.Links, cwd: string, a: Arrow)
    requires Valid(keyInfo)
    requires var r := Visualized(focus, keyInfo, agg, cwd); r.Drawn? && a in r.arrows
    ensures var r := Visualized(focus, keyInfo, agg, cwd);
            a.from in r.nodes && a.to in r.nodes
            && IsFileNode(a.from, Values(keyInfo)) && IsFileNode(a.to, Values(keyInfo))
            && exists e | e in r.edges :: ArrowOf(e) == a
  {
  }

  /** The valid focus keys are always nodes, even without edges. */
  lemma FocusKeysDrawn(focus: seq<string>, keyInfo: Dict<KeyInfo>, agg: TrackerUtils.Links, cwd: string, k: string)
    requires Valid(keyInfo)
    requires ViewOf(focus, Values(keyInfo)).Some? && k in ValidOf(ViewOf(focus, Values(keyInfo)).value)
    ensures Visualized(focus, keyInfo, agg, cwd).Drawn? && k in Visualized(focus, keyInfo, agg, cwd).nodes
  {
  }

  // ---------------------------------------------------------------------
  // The loops of generate_mermaid_diagram

  /** The loop gathering keys_in_module_scope. */
  method ModuleScopeKeys(infos: seq<KeyInfo>, focusKey: string, dir: string) returns (scope: set<string>)
    ensures scope == {focusKey} + ModuleKeys(infos, dir)
  {
    scope := {focusKey};
    var i := 0;
    while i < |infos|
      invariant i <= |infos|
      invariant scope == {focusKey} + ModuleKeys(infos[..i], dir)
    {
      assert infos[..i + 1][..i] == infos[..i];
      if infos[i].normPath == dir || StartsWith(infos[i].normPath, dir + "/") {
        scope := scope + {infos[i].keyString};
      }
      i := i + 1;
    }
    assert infos[..i] == infos;
  }

  /** The loop gathering the valid keys of a multi-key focus. */
  method ValidFocusKeys(focus: seq<string>, infos: seq<KeyInfo>) returns (valid: set<string>)
    ensures valid == FoundKeys(focus, infos)
  {
    valid := {};
    var i := 0;
    while i < |focus|
      invariant i <= |focus|
      invariant valid == FoundKeys(focus[..i], infos)
    {
      assert focus[..i + 1][..i] == focus[..i];
      if FirstWithKey(infos, focus[i]).Some? {
        valid := valid + {focus[i]};
      }
      i := i + 1;
    }
    assert focus[..i] == focus;
  }

  /** Step 1 and the scope determination. */
  method DetermineView(focus: seq<string>, infos: seq<KeyInfo>) returns (view: Option<View>)
    ensures view == ViewOf(focus, infos)
  {
    if |focus| == 1 {
      var info := FirstWithKey(infos, focus[0]);
      if info.Some? && info.value.isDirectory {
        var scope := ModuleScopeKeys(infos, focus[0], info.value.normPath);
        view := Some(Module(focus[0], scope));
      } else if info.Some? {
        view := Some(Focus({focus[0]}));
      } else {
        view := Some(Overview);
      }
    } else if |focus| > 1 {
      var valid := ValidFocusKeys(focus, infos);
      view := if valid == {} then None else Some(Focus(valid));
    } else {
      view := Some(Overview);
    }
  }

  /** Step 3: the module and focus views keep the edges with an end in scope; the overview keeps all. */
  method FilterScope(edges: set<Edge>, view: View) returns (r: set<Edge>)
    ensures r == Scoped(edges, view)
  {
    if view.Overview? {
      return edges;
    }
    r := {};
    var done: set<Edge> := {};
    var rest := edges;
    while rest != {}
      invariant done + rest == edges
      invariant r == Scoped(done, view)
      decreases |rest|
    {
      var e :| e in rest;
      if InView(e, view) {
        r := r + {e};
      }
      done, rest := done + {e}, rest - {e};
    }
  }

  /** Step 4. */
  method FilterFinal(edges: set<Edge>, infos: seq<KeyInfo>, cwd: string) returns (r: set<Edge>)
    ensures r == Final(edges, infos, cwd)
  {
    r := {};
    var done: set<Edge> := {};
    var rest := edges;
    while rest != {}
      invariant done + rest == edges
      invariant r == Final(done, infos, cwd)
      decreases |rest|
    {
      var e :| e in rest;
      done, rest := done + {e}, rest - {e};
      if e.dep == 'p' {
        continue;
      }
      var i1 := LastWithKey(infos, e.from);
      var i2 := LastWithKey(infos, e.to);
      if i1.None? || i2.None? {
        continue;
      }
      if e.dep == 'x' && IsDirectParentChild(e.from, e.to, infos, cwd) {
        continue;
      }
      if e.dep != 'd' && i1.value.isDirectory != i2.value.isDirectory {
        continue;
      }
      r := r + {e};
    }
  }

  /** Step 7: an arrow for each kept edge between two defined nodes. */
  method DrawArrows(edges: set<Edge>, defined: set<string>) returns (r: set<Arrow>)
    ensures r == Arrows(edges, defined)
  {
    r := {};
    var done: set<Edge> := {};
    var rest := edges;
    while rest != {}
      invariant done + rest == edges
      invariant r == Arrows(done, defined)
      decreases |rest|
    {
      var e :| e in rest;
      if e.from in defined && e.to in defined {
        r := r + {ArrowOf(e)};
      }
      done, rest := done + {e}, rest - {e};
    }
  }

  /** generate_mermaid_diagram, up to the Mermaid text. */
  method GenerateMermaidDiagram(focus: seq<string>, keyInfo: Dict<KeyInfo>, agg: TrackerUtils.Links, cwd: string)
    returns (r: Diagram)
    requires Valid(keyInfo)
    ensures r == Visualized(focus, keyInfo, agg, cwd)
  {
    var infos := Values(keyInfo);
    var view := DetermineView(focus, infos);
    if view.None? {
      return NoValidFocus;
    }
    var intermediate := ConsolidateLinks(NonN(Directed(agg)));
    var scoped := FilterScope(intermediate, view.value);
    var edges := FilterFinal(scoped, infos, cwd);
    var nodes := Nodes(edges, ValidOf(view.value));
    if nodes == {} {
      return NoData;
    }
    var arrows := DrawArrows(edges, Defined(nodes, infos));
    r := Drawn(nodes, edges, arrows);
  }
}
