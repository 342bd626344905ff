/**
 * `split_html_into_sections` (scrape.py, lines 79-129): cutting the sequence
 * of `<center>` pages into one fragment per listed anchor, slicing a page that
 * holds several anchors.  The source rewrites the page's child list in place
 * between passes; the model keeps that list in a local variable instead
 * (pages never nest, so no later page could observe the rewrite).
 */
module Partition {
  import opened Wrappers
  import opened Tree

  /** The top-level nodes of one section's markup, in order. */
  type Fragment = seq<Node>

  /** The synthetic page `<center><div>cs</div></center>` a slice is emitted as. */
  function Wrap(cs: seq<Node>): Node {
    Elem("center", [], [Elem("div", [], cs)])
  }

  /** `soup.find_all('center')`. */
  function Pages(root: Node): seq<Node> {
    TagsNamed(Descendants(root), "center")
  }

  /** No page holds another page (the in-place rewrite of a page stays invisible). */
  predicate FlatPages(root: Node) {
    forall i :: 0 <= i < |Pages(root)| ==> Find(Pages(root)[i], "center").None?
  }

  /** `[a['name'] for a in div.find_all('a', {'name': True}) if a['name'] in ids]`. */
  function ListedAnchors(ds: seq<Node>, ids: seq<string>): seq<string> {
    if ds == [] then []
    else
      var name := Attr(ds[0], "name");
      (if IsTag(ds[0], "a") && name.Some? && name.value in ids then [name.value] else [])
      + ListedAnchors(ds[1..], ids)
  }

  /** `section_names` of a page's div. */
  function Names(div: Node, ids: seq<string>): seq<string> {
    ListedAnchors(Descendants(div), ids)
  }

  /**
   * The cut test: the first `<a>` below child `c` is named `name`.  A string
   * child never passes (`str.find` returns an int, not a tag), nor does an
   * anchor that is itself the child (`find` only searches below it).
   */
  predicate FirstAnchorIs(c: Node, name: string) {
    c.Elem? && FirstAnchorIn(c.children, name)
  }

  /** The first `<a>` of the forest `ds` carries the name `name`. */
  predicate FirstAnchorIn(cs: seq<Node>, name: string) {
    var ds := Forest(cs);
    var i := FirstTagIndex(ds, "a");
    i < |ds| && Attr(ds[i], "name") == Some(name)
  }

  /** The cut test is the source's `tag.find('a').get('name') == name`. */
  lemma FirstAnchorIsFind(c: Node, name: string)
    ensures FirstAnchorIs(c, name) <==> (Find(c, "a").Some? && Attr(Find(c, "a").value, "name") == Some(name))
  {
    if c.Elem? {
      var ds := Forest(c.children);
      assert Descendants(c) == ds;
      var i := FirstTagIndex(ds, "a");
      assert Find(c, "a") == if i < |ds| then Some(ds[i]) else None;
    } else {
      assert Descendants(c) == [];
    }
  }

  /** The position of the first child that passes the cut test, or `|cs|`. */
  function CutIndex(cs: seq<Node>, name: string): (j: nat)
    ensures j <= |cs|
    ensures j < |cs| ==> FirstAnchorIs(cs[j], name)
    ensures forall t :: 0 <= t < j ==> !FirstAnchorIs(cs[t], name)
  {
    if cs == [] then 0
    else if FirstAnchorIs(cs[0], name) then 0
    else 1 + CutIndex(cs[1..], name)
  }

  /**
   * Every pass of the slicing loop finds its cut.  When a pass finds none the
   * source loops forever (the child list becomes empty and the names never
   * shrink), so this is what the source demands of its input.
   */
  predicate Cuttable(cs: seq<Node>, names: seq<string>)
    decreases |names|
  {
    |names| <= 1 || (CutIndex(cs, names[1]) < |cs| && Cuttable(cs[CutIndex(cs, names[1])..], names[1..]))
  }

  /** The children of a page with anchors `names`, cut into one piece per anchor. */
  function Cut(cs: seq<Node>, names: seq<string>): (ps: seq<seq<Node>>)
    requires |names| >= 1 && Cuttable(cs, names)
    ensures |ps| == |names|
    decreases |names|
  {
    if |names| == 1 then [cs]
    else
      var j := CutIndex(cs, names[1]);
      [cs[..j]] + Cut(cs[j..], names[1..])
  }

  /** The pieces of a page partition its children, in order. */
  lemma {:induction false} CutPartitionsChildren(cs: seq<Node>, names: seq<string>)
    requires |names| >= 1 && Cuttable(cs, names)
    ensures Flatten(Cut(cs, names)) == cs
    decreases |names|
  {
    if |names| > 1 {
      var j := CutIndex(cs, names[1]);
      CutStep(cs, names);
      var rest := Cut(cs[j..], names[1..]);
      assert Flatten(rest) == cs[j..] by {
        CutPartitionsChildren(cs[j..], names[1..]);
      }
      assert Flatten([cs[..j]] + rest) == cs[..j] + Flatten(rest) by {
        FlattenAppend([cs[..j]], rest);
        assert Flatten([cs[..j]]) == cs[..j] + Flatten([]);
      }
      assert cs[..j] + cs[j..] == cs;
    }
  }

  /**
   * Piece `m` ends just before the first child, from its start on, whose
   * first `<a>` names anchor `m + 1`: no child of piece `m` passes that test,
   * and the child right after the piece does.
   */
  predicate CutBefore(ps: seq<seq<Node>>, names: seq<string>, m: nat)
    requires m + 1 < |ps| && m + 1 < |names|
  {
    var after := Flatten(ps[m + 1..]);
    && after != []
    && FirstAnchorIs(after[0], names[m + 1])
    && forall t :: 0 <= t < |ps[m]| ==> !FirstAnchorIs(ps[m][t], names[m + 1])
  }

  /** Every cut falls just before the child whose first `<a>` names the next anchor. */
  lemma {:induction false} CutFallsBeforeNextAnchor(cs: seq<Node>, names: seq<string>)
    requires |names| >= 1 && Cuttable(cs, names)
    ensures forall m: nat :: m + 1 < |names| ==> CutBefore(Cut(cs, names), names, m)
    decreases |names|
  {
    if |names| > 1 {
      var j := CutIndex(cs, names[1]);
      CutStep(cs, names);
      var ps := Cut(cs, names);
      var rest := Cut(cs[j..], names[1..]);
      assert ps == [cs[..j]] + rest;
      assert Flatten(rest) == cs[j..] by {
        CutPartitionsChildren(cs[j..], names[1..]);
      }
      CutFallsBeforeNextAnchor(cs[j..], names[1..]);
      forall m: nat | m + 1 < |names| ensures CutBefore(ps, names, m) {
        assert ps[m + 1..] == rest[m..];
        if m > 0 {
          assert CutBefore(rest, names[1..], m - 1);
          assert ps[m] == rest[m - 1];
        } else {
          assert rest[0..] == rest;
        }
      }
    }
  }

  /** A suffix that starts with `a` and goes on with `tail`. */
  lemma SuffixCons<T>(s: seq<T>, m: nat, a: T, tail: seq<T>)
    requires m < |s| && s[m..] == [a] + tail
    ensures s[m] == a && s[m + 1..] == tail && (tail == [] ==> m == |s| - 1)
  {
    assert s[m..][0] == s[m];
    assert s[m..][1..] == s[m + 1..];
  }

  /** One pass peels the first piece off. */
  lemma CutStep(cs: seq<Node>, names: seq<string>)
    requires |names| > 1 && Cuttable(cs, names)
    ensures var j := CutIndex(cs, names[1]);
            && j < |cs| && Cuttable(cs[j..], names[1..])
            && Cut(cs, names) == [cs[..j]] + Cut(cs[j..], names[1..])
  {
  }

  /** A page the slicing loop terminates on. */
  predicate PageCuttable(page: Node, ids: seq<string>) {
    match Find(page, "div")
    case None => true
    case Some(div) => Cuttable(div.children, Names(div, ids))
  }

  /** The source's input demand: slicing terminates on every page. */
  predicate Splittable(root: Node, ids: seq<string>) {
    forall i :: 0 <= i < |Pages(root)| ==> PageCuttable(Pages(root)[i], ids)
  }

  /** Emitted slices, one single-page fragment per piece. */
  function Slices(ps: seq<seq<Node>>): (fs: seq<Fragment>)
    ensures |fs| == |ps|
    ensures forall i :: 0 <= i < |ps| ==> fs[i] == [Wrap(ps[i])]
  {
    seq(|ps|, i requires 0 <= i < |ps| => [Wrap(ps[i])])
  }

  lemma SlicesSnoc(ps: seq<seq<Node>>, m: nat)
    requires m < |ps|
    ensures Slices(ps[..m + 1]) == Slices(ps[..m]) + [[Wrap(ps[m])]]
  {
    assert ps[..m + 1] == ps[..m] + [ps[m]];
  }

  /** The loop's state between pages: emitted sections and the open section. */
  datatype Progress = Progress(sections: seq<Fragment>, open: Fragment)

  /** Closing the open section, if it has anything in it. */
  function Flushed(st: Progress): seq<Fragment> {
    if st.open != [] then st.sections + [st.open] else st.sections
  }

  /**
   * One iteration of the page loop on a page whose first `<div>` has the
   * children `children` and lists the anchors `names`.
   */
  function StepDiv(st: Progress, page: Node, children: seq<Node>, names: seq<string>): Progress
    requires Cuttable(children, names)
  {
    if |names| == 0 then Progress(st.sections, st.open + [page])
    else if |names| == 1 then Progress(Flushed(st), [page])
    else
      var ps := Cut(children, names);
      Progress(Flushed(st) + Slices(ps[..|ps| - 1]), [Wrap(ps[|ps| - 1])])
  }

  /** One iteration of the page loop: a page without a `<div>` changes nothing. */
  function Step(st: Progress, page: Node, ids: seq<string>): Progress
    requires PageCuttable(page, ids)
  {
    match Find(page, "div")
    case None => st
    case Some(div) => StepDiv(st, page, div.children, Names(div, ids))
  }

  predicate AllCuttable(pages: seq<Node>, ids: seq<string>) {
    forall i :: 0 <= i < |pages| ==> PageCuttable(pages[i], ids)
  }

  /** The state after the pages `pages`. */
  function Run(pages: seq<Node>, ids: seq<string>): Progress
    requires AllCuttable(pages, ids)
  {
    if pages == [] then Progress([], [])
    else Step(Run(pages[..|pages| - 1], ids), pages[|pages| - 1], ids)
  }

  /** The fragments `split_html_into_sections` returns for the pages `pages`. */
  function PartitionOf(pages: seq<Node>, ids: seq<string>): seq<Fragment>
    requires AllCuttable(pages, ids)
  {
    Flushed(Run(pages, ids))
  }

  /** The listed anchors of a page's div; none when it has no div. */
  function PageNames(page: Node, ids: seq<string>): seq<string> {
    match Find(page, "div")
    case None => []
    case Some(div) => Names(div, ids)
  }

  /** Every listed anchor of the pages, page by page, in order. */
  function AllNames(pages: seq<Node>, ids: seq<string>): seq<string> {
    if pages == [] then [] else AllNames(pages[..|pages| - 1], ids) + PageNames(pages[|pages| - 1], ids)
  }

  /** Some page has a div. */
  predicate AnyDiv(pages: seq<Node>) {
    pages != [] && (AnyDiv(pages[..|pages| - 1]) || Find(pages[|pages| - 1], "div").Some?)
  }

  /**
   * The first page with a div lists no anchor: the content before the first
   * anchor (the cover and the table of contents) forms a fragment of its own.
   */
  predicate Lead(pages: seq<Node>, ids: seq<string>) {
    if pages == [] then false
    else if AnyDiv(pages[..|pages| - 1]) then Lead(pages[..|pages| - 1], ids)
    else Find(pages[|pages| - 1], "div").Some? && PageNames(pages[|pages| - 1], ids) == []
  }

  /**
   * Between pages, the open fragment is empty exactly until the first page
   * with a div, and the emitted plus the open fragments number one per listed
   * anchor, plus the lead fragment.
   */
  lemma {:induction false} RunCounts(pages: seq<Node>, ids: seq<string>)
    requires AllCuttable(pages, ids)
    ensures Run(pages, ids).open == [] <==> !AnyDiv(pages)
    ensures |Run(pages, ids).sections| + (if Run(pages, ids).open == [] then 0 else 1)
            == |AllNames(pages, ids)| + (if Lead(pages, ids) then 1 else 0)
  {
    if pages != [] {
      var init, page := pages[..|pages| - 1], pages[|pages| - 1];
      assert AllCuttable(init, ids);
      RunCounts(init, ids);
      var st := Run(init, ids);
      assert Run(pages, ids) == Step(st, page, ids);
      assert |Flushed(st)| == |st.sections| + (if st.open == [] then 0 else 1);
      match Find(page, "div")
      case None =>
      case Some(div) =>
        var names := Names(div, ids);
        if |names| > 1 {
          var ps := Cut(div.children, names);
          assert |Slices(ps[..|ps| - 1])| == |names| - 1;
        }
    }
  }

  /**
   * `split_html_into_sections` returns one fragment per listed anchor, plus
   * the lead fragment when the first page with a div lists no anchor.
   */
  lemma PartitionCount(pages: seq<Node>, ids: seq<string>)
    requires AllCuttable(pages, ids)
    ensures |PartitionOf(pages, ids)| == |AllNames(pages, ids)| + (if Lead(pages, ids) then 1 else 0)
  {
    RunCounts(pages, ids);
  }

  /**
   * A page with `k >= 2` listed anchors closes the open fragment, emits the
   * first `k - 1` pieces of its div's children as slices, and leaves the last
   * piece open; the pieces partition the children and each cut falls just
   * before the child whose first `<a>` names the next anchor.
   */
  lemma SlicedPage(st: Progress, page: Node, div: Node, ids: seq<string>)
    requires Find(page, "div") == Some(div) && |Names(div, ids)| >= 2
    requires PageCuttable(page, ids)
    ensures var names := Names(div, ids);
            var ps := Cut(div.children, names);
            && Step(st, page, ids) == Progress(Flushed(st) + Slices(ps[..|ps| - 1]), [Wrap(ps[|ps| - 1])])
            && Flatten(ps) == div.children
            && (forall m: nat :: m + 1 < |names| ==> CutBefore(ps, names, m))
  {
    CutPartitionsChildren(div.children, Names(div, ids));
    CutFallsBeforeNextAnchor(div.children, Names(div, ids));
  }

  /**
   * One pass of the slicing loop (`for tag in div_tag.contents`): the children
   * before the first one whose first `<a>` names `names[1]` form the slice; that
   * child and everything after it are the next contents.
   */
  method SlicePass(contents: seq<Node>, names: seq<string>) returns (slice: seq<Node>, next: seq<Node>, rest: seq<string>)
    requires |names| > 1 && CutIndex(contents, names[1]) < |contents|
    ensures var j := CutIndex(contents, names[1]);
            slice == contents[..j] && next == contents[j..] && rest == names[1..]
  {
    ghost var j := CutIndex(contents, names[1]);
    next := [];
    rest := names;
    var inNext := false;
    slice := [];
    for t := 0 to |contents|
      invariant !inNext ==> t <= j && slice == contents[..t] && rest == names && next == []
      invariant inNext ==> j < t && slice == contents[..j] && rest == names[1..] && next == contents[j..t]
    {
      var tag := contents[t];
      if !inNext {
        slice := slice + [tag];
        if FirstAnchorIs(tag, rest[1]) {
          slice := slice[..|slice| - 1];
          rest := rest[1..];
          inNext := true;
          next := next + [tag];
        }
      } else {
        next := next + [tag];
      }
    }
  }

  /**
   * The `while len(section_names) > 1` loop: emit one slice per pass; `next`
   * ends as the last piece (the page's remainder), or empty when the page has
   * a single anchor and no pass runs.
   */
  method SlicePage(children: seq<Node>, names: seq<string>, sections: seq<Fragment>)
    returns (emitted: seq<Fragment>, next: seq<Node>)
    requires |names| >= 1 && Cuttable(children, names)
    ensures var ps := Cut(children, names);
            emitted == sections + Slices(ps[..|ps| - 1])
            && (|names| == 1 ==> next == [])
            && (|names| > 1 ==> next == ps[|ps| - 1] && next != [])
  {
    ghost var pieces := Cut(children, names);
    ghost var total := |names|;
    emitted := sections;
    next := [];
    var contents := children;
    var left := names;
    ghost var m := 0;
    while |left| > 1
      invariant 1 <= |left| && m + |left| == total
      invariant Cuttable(contents, left) && Cut(contents, left) == pieces[m..]
      invariant emitted == sections + Slices(pieces[..m])
      invariant m == 0 ==> next == []
      invariant m > 0 ==> next == contents && contents != []
      decreases |left|
    {
      CutStep(contents, left);
      var slice;
      slice, next, left := SlicePass(contents, left);
      emitted := emitted + [[Wrap(slice)]];
      SuffixCons(pieces, m, slice, Cut(next, left));
      SlicesSnoc(pieces, m);
      contents := next;
      m := m + 1;
    }
    SuffixCons(pieces, m, contents, []);
  }

  /** The state after one more page. */
  lemma RunSnoc(pages: seq<Node>, i: nat, ids: seq<string>)
    requires i < |pages| && AllCuttable(pages, ids)
    ensures AllCuttable(pages[..i], ids) && AllCuttable(pages[..i + 1], ids)
    ensures Run(pages[..i + 1], ids) == Step(Run(pages[..i], ids), pages[i], ids)
  {
    assert pages[..i + 1][..i] == pages[..i];
  }

  /**
   * The body of the page loop for a page whose first `<div>` has the children
   * `children` and lists the anchors `names`.
   */
  method AddDivPage(sections: seq<Fragment>, current: Fragment, page: Node, children: seq<Node>, names: seq<string>)
    returns (sections': seq<Fragment>, current': Fragment)
    requires Cuttable(children, names)
    ensures Progress(sections', current') == StepDiv(Progress(sections, current), page, children, names)
  {
    sections', current' := sections, current;
    if names != [] {
      if current' != [] {
        sections' := sections' + [current'];
        current' := [];
      }
      var next;
      sections', next := SlicePage(children, names, sections');
      if next != [] {
        current' := [Wrap(next)];
      } else {
        current' := [page];
      }
    } else {
      current' := current' + [page];
    }
  }

  /** The body of the page loop: `sections` and `current` after `page`. */
  method AddPage(sections: seq<Fragment>, current: Fragment, page: Node, ids: seq<string>)
    returns (sections': seq<Fragment>, current': Fragment)
    requires PageCuttable(page, ids)
    ensures Progress(sections', current') == Step(Progress(sections, current), page, ids)
  {
    var divTag := Find(page, "div");
    if divTag.None? {
      return sections, current;
    }
    var div := divTag.value;
    sections', current' := AddDivPage(sections, current, page, div.children, Names(div, ids));
  }

  /**
   * `split_html_into_sections`: pages without anchors join the open fragment;
   * a page with anchors closes it, emits one slice per extra anchor, and opens
   * a new fragment with the rest.
   */
  method SplitHtmlIntoSections(root: Node, ids: seq<string>) returns (sections: seq<Fragment>)
    requires Splittable(root, ids)
    requires FlatPages(root)
    ensures sections == PartitionOf(Pages(root), ids)
  {
    var pages := Pages(root);
    sections := [];
    var current: Fragment := [];
    for i := 0 to |pages|
      invariant AllCuttable(pages[..i], ids)
      invariant Progress(sections, current) == Run(pages[..i], ids)
    {
      RunSnoc(pages, i, ids);
      sections, current := AddPage(sections, current, pages[i], ids);
    }
    assert pages[..|pages|] == pages;
    if current != [] {
      sections := sections + [current];
    }
  }
}
