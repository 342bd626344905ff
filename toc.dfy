/**
 * Locating the real table of contents and reading the section ids from it:
 * `find_toc_lines`, `identify_unique_toc` and `extract_section_ids`
 * (scrape.py, lines 28-77).
 */
module Toc {
  import opened Wrappers
  import opened Strings
  import opened Tree

  /** The three spellings `find_toc_lines` looks for; the match is case-sensitive. */
  predicate MentionsToc(s: string) {
    || Contains(s, "Table of Contents")
    || Contains(s, "TABLE OF CONTENTS")
    || Contains(s, "table of contents")
  }

  /** `soup.find_all(string=True)` with each string's parent, in document order. */
  function AllStrings(root: Node): seq<(string, Node)> {
    if root.Elem? then TextParents(root, root.children) else []
  }

  /** The parent of every string of `ts` that mentions the table of contents, in order. */
  function TocParents(ts: seq<(string, Node)>): seq<Node> {
    if ts == [] then []
    else
      var last := ts[|ts| - 1];
      TocParents(ts[..|ts| - 1]) + (if MentionsToc(last.0) then [last.1] else [])
  }

  /** `find_toc_lines`: one entry per matching string, its parent tag. */
  method FindTocLines(root: Node) returns (lines: seq<Node>)
    ensures lines == TocParents(AllStrings(root))
  {
    var strs := AllStrings(root);
    lines := [];
    for i := 0 to |strs|
      invariant lines == TocParents(strs[..i])
    {
      assert strs[..i + 1][..i] == strs[..i];
      if MentionsToc(strs[i].0) {
        lines := lines + [strs[i].1];
      }
    }
    assert strs[..|strs|] == strs;
  }

  /** The candidate lines keep document order: the lines of a prefix come first. */
  lemma {:induction false} TocParentsAppend(a: seq<(string, Node)>, b: seq<(string, Node)>)
    ensures TocParents(a + b) == TocParents(a) + TocParents(b)
    decreases |b|
  {
    if b == [] {
      assert a + b == a;
    } else {
      assert (a + b)[..|a + b| - 1] == a + b[..|b| - 1];
      TocParentsAppend(a, b[..|b| - 1]);
    }
  }

  /** A tag is a candidate line exactly when some matching string sits directly in it. */
  lemma {:induction false} TocParentsMembership(ts: seq<(string, Node)>, p: Node)
    ensures p in TocParents(ts) <==> exists i :: 0 <= i < |ts| && MentionsToc(ts[i].0) && ts[i].1 == p
  {
    if ts != [] {
      var init := ts[..|ts| - 1];
      TocParentsMembership(init, p);
      if exists i :: 0 <= i < |ts| && MentionsToc(ts[i].0) && ts[i].1 == p {
        var i :| 0 <= i < |ts| && MentionsToc(ts[i].0) && ts[i].1 == p;
        if i < |ts| - 1 {
          assert init[i] == ts[i];
        }
      }
      if p in TocParents(init) {
        var i :| 0 <= i < |init| && MentionsToc(init[i].0) && init[i].1 == p;
        assert ts[i] == init[i];
      }
    }
  }

  /** `map(str, toc_lines)`: the serialised lines. */
  function Keys(lines: seq<Node>): (ks: seq<string>)
    ensures |ks| == |lines|
    ensures forall i :: 0 <= i < |lines| ==> ks[i] == Serialize(lines[i])
  {
    seq(|lines|, i requires 0 <= i < |lines| => Serialize(lines[i]))
  }

  /** Line `i` is unique: its serialisation occurs exactly once (`Counter` count 1). */
  predicate IsUnique(ks: seq<string>, i: int)
    requires 0 <= i < |ks|
  {
    multiset(ks)[ks[i]] == 1
  }

  /** The earliest unique position at or after `i`, or `|ks|` when there is none. */
  function FirstUniqueFrom(ks: seq<string>, i: nat): (u: nat)
    requires i <= |ks|
    ensures i <= u <= |ks|
    ensures forall j :: i <= j < u ==> !IsUnique(ks, j)
    ensures u < |ks| ==> IsUnique(ks, u)
    decreases |ks| - i
  {
    if i == |ks| then i
    else if IsUnique(ks, i) then i
    else FirstUniqueFrom(ks, i + 1)
  }

  /** `Counter(ks).keys()`: the distinct keys of `ks[i..]` not in `seen`, in order of first appearance. */
  function CounterOrder(ks: seq<string>, i: nat, seen: set<string>): seq<string>
    decreases |ks| - i
  {
    if i >= |ks| then []
    else if ks[i] in seen then CounterOrder(ks, i + 1, seen)
    else [ks[i]] + CounterOrder(ks, i + 1, seen + {ks[i]})
  }

  /** The keys of `order` counted exactly once in `ks` (the comprehension of `identify_unique_toc`). */
  function CountedOnce(ks: seq<string>, order: seq<string>): seq<string> {
    if order == [] then []
    else (if multiset(ks)[order[0]] == 1 then [order[0]] else []) + CountedOnce(ks, order[1..])
  }

  /** Position of the first occurrence of `k` in `ks`, or `|ks|`. */
  function IndexOfKey(ks: seq<string>, k: string): (i: nat)
    ensures i <= |ks|
    ensures i < |ks| ==> ks[i] == k
    ensures forall j :: 0 <= j < i ==> ks[j] != k
  {
    if ks == [] then 0 else if ks[0] == k then 0 else 1 + IndexOfKey(ks[1..], k)
  }

  function FirstTagIndexOf(ds: seq<Node>): (i: nat)
    ensures i <= |ds|
    ensures i < |ds| ==> ds[i].Elem?
    ensures forall j :: 0 <= j < i ==> !ds[j].Elem?
  {
    if ds == [] then 0 else if ds[0].Elem? then 0 else 1 + FirstTagIndexOf(ds[1..])
  }

  /**
   * `BeautifulSoup(str(n)).find()`: re-parsing a serialised tag and taking its
   * first tag gives the tag back; for the document object it gives the
   * document's first tag, if any.
   */
  function Reparse(n: Node): Option<Node> {
    if IsTag(n, DocName) then
      var ds := Descendants(n);
      var i := FirstTagIndexOf(ds);
      if i < |ds| then Some(ds[i]) else None
    else Some(n)
  }

  lemma {:induction false} RepeatedKey(ks: seq<string>, j: nat, i: nat)
    requires j < i < |ks| && ks[j] == ks[i]
    ensures multiset(ks)[ks[i]] >= 2
  {
    assert ks == ks[..j] + [ks[j]] + ks[j + 1..i] + [ks[i]] + ks[i + 1..];
  }

  lemma {:induction false} CounterOrderFindsFirstUnique(ks: seq<string>, i: nat, seen: set<string>)
    requires i <= |ks|
    requires forall k :: k in seen <==> k in ks[..i]
    ensures var u := FirstUniqueFrom(ks, i);
            var once := CountedOnce(ks, CounterOrder(ks, i, seen));
            (once == [] <==> u == |ks|) && (u < |ks| ==> once[0] == ks[u])
    decreases |ks| - i
  {
    if i < |ks| {
      assert ks[..i + 1] == ks[..i] + [ks[i]];
      if ks[i] in seen {
        var j :| 0 <= j < i && ks[..i][j] == ks[i];
        RepeatedKey(ks, j, i);
        CounterOrderFindsFirstUnique(ks, i + 1, seen);
      } else {
        CounterOrderFindsFirstUnique(ks, i + 1, seen + {ks[i]});
      }
    }
  }

  /**
   * `identify_unique_toc`: count the serialised lines, keep those counted once
   * (in first-appearance order) and re-parse the first of them.
   */
  function IdentifyUniqueToc(lines: seq<Node>): (r: Option<Node>)
    ensures var u := FirstUniqueFrom(Keys(lines), 0);
            r == if u < |lines| then Reparse(lines[u]) else None
  {
    var ks := Keys(lines);
    var once := CountedOnce(ks, CounterOrder(ks, 0, {}));
    CounterOrderFindsFirstUnique(ks, 0, {});
    if once == [] then None
    else
      var u := FirstUniqueFrom(ks, 0);
      var j := IndexOfKey(ks, once[0]);
      assert j == u by {
        if j < u {
          RepeatedKey(ks, j, u);
        }
      }
      Reparse(lines[j])
  }

  /** `identify_unique_toc` fails (returns None) whenever no line is unique. */
  lemma NoUniqueLineGivesNone(lines: seq<Node>)
    requires forall i :: 0 <= i < |lines| ==> multiset(Keys(lines))[Serialize(lines[i])] != 1
    ensures IdentifyUniqueToc(lines) == None
  {
    var ks := Keys(lines);
    var u := FirstUniqueFrom(ks, 0);
    assert u < |lines| ==> multiset(ks)[Serialize(lines[u])] == 1;
  }

  datatype TocError =
    | ContainerNotFound   // `ValueError("TOC container not found")`
    | NoEnclosingDiv      // the walk up passes the document root (`None.name` raises)

  /** `str(unique_toc_html)`: a missing line prints as "None". */
  function TocLineMarkup(toc: Option<Node>): string {
    match toc
    case Some(n) => Serialize(n)
    case None => "None"
  }

  /** `soup.find_all(True)` of the document, each tag with its ancestors. */
  function AllTags(root: Node): seq<(Node, seq<Node>)> {
    if root.Elem? then TagPaths([root], root.children) else []
  }

  /** Position of the first tag of `paths` whose markup is `line`, or `|paths|`. */
  function MatchIndex(paths: seq<(Node, seq<Node>)>, line: string): (i: nat)
    ensures i <= |paths|
    ensures i < |paths| ==> Serialize(paths[i].0) == line
    ensures forall j :: 0 <= j < i ==> Serialize(paths[j].0) != line
  {
    if paths == [] then 0
    else if Serialize(paths[0].0) == line then 0
    else 1 + MatchIndex(paths[1..], line)
  }

  /** No ancestor strictly between `chain[k]` and the tag the walk starts from is a `div`. */
  predicate NoDivAbove(chain: seq<Node>, k: int)
    requires 0 <= k < |chain|
  {
    forall m :: k < m < |chain| ==> !IsTag(chain[m], "div")
  }

  /** Walking up from `e` (ancestors `chain`, root first) to the nearest `div`, `e` included. */
  function EnclosingDiv(e: Node, chain: seq<Node>): (r: Option<Node>)
    ensures r.Some? ==> IsTag(r.value, "div")
    ensures IsTag(e, "div") ==> r == Some(e)
    ensures r.Some? && !IsTag(e, "div") ==>
              exists k :: 0 <= k < |chain| && chain[k] == r.value && NoDivAbove(chain, k)
    ensures r.None? ==> !IsTag(e, "div") && forall k :: 0 <= k < |chain| ==> !IsTag(chain[k], "div")
    decreases |chain|
  {
    if IsTag(e, "div") then Some(e)
    else if chain == [] then None
    else EnclosingDiv(chain[|chain| - 1], chain[..|chain| - 1])
  }

  /** The section id a node contributes: `href[1:]` of an `<a>` whose href starts with '#'. */
  function Target(d: Node): seq<string> {
    var href := Attr(d, "href");
    if IsTag(d, "a") && href.Some? && |href.value| > 0 && href.value[0] == '#' then [href.value[1..]] else []
  }

  /** The section ids of the nodes `ds`, in order, duplicates kept. */
  function HashTargets(ds: seq<Node>): seq<string> {
    if ds == [] then [] else HashTargets(ds[..|ds| - 1]) + Target(ds[|ds| - 1])
  }

  lemma HashTargetsSnoc(ds: seq<Node>, d: Node)
    ensures HashTargets(ds + [d]) == HashTargets(ds) + Target(d)
  {
    assert (ds + [d])[..|ds|] == ds;
  }

  /** The loop over the container's descendants, keeping the '#'-targets of its links in order. */
  method CollectTargets(links: seq<Node>) returns (ids: seq<string>)
    ensures ids == HashTargets(links)
  {
    ids := [];
    for k := 0 to |links|
      invariant ids == HashTargets(links[..k])
    {
      assert links[..k + 1] == links[..k] + [links[k]];
      HashTargetsSnoc(links[..k], links[k]);
      var href := Attr(links[k], "href");
      if IsTag(links[k], "a") && href.Some? {
        if |href.value| > 0 && href.value[0] == '#' {
          ids := ids + [href.value[1..]];
        }
      }
    }
    assert links[..|links|] == links;
  }

  /** What `extract_section_ids` computes. */
  function SectionIds(root: Node, toc: Option<Node>): Result<seq<string>, TocError> {
    var paths := AllTags(root);
    var i := MatchIndex(paths, TocLineMarkup(toc));
    if i == |paths| then Err(ContainerNotFound)
    else
      match EnclosingDiv(paths[i].0, paths[i].1)
      case None => Err(NoEnclosingDiv)
      case Some(div) => Ok(HashTargets(Descendants(div)))
  }

  /**
   * `extract_section_ids`: find the first tag that serialises to the TOC line,
   * walk up to its `div`, and collect the '#'-targets of the links inside it.
   */
  method ExtractSectionIds(root: Node, toc: Option<Node>) returns (r: Result<seq<string>, TocError>)
    ensures r == SectionIds(root, toc)
  {
    var line := TocLineMarkup(toc);
    var paths := AllTags(root);
    var i := 0;
    while i < |paths| && Serialize(paths[i].0) != line
      invariant i <= |paths|
      invariant forall j :: 0 <= j < i ==> Serialize(paths[j].0) != line
    {
      i := i + 1;
    }
    assert i == MatchIndex(paths, line);
    if i == |paths| {
      return Err(ContainerNotFound);
    }
    var element, chain := paths[i].0, paths[i].1;
    while !IsTag(element, "div")
      invariant EnclosingDiv(element, chain) == EnclosingDiv(paths[i].0, paths[i].1)
      decreases |chain|
    {
      if chain == [] {
        return Err(NoEnclosingDiv);
      }
      element, chain := chain[|chain| - 1], chain[..|chain| - 1];
    }
    var ids := CollectTargets(Descendants(element));
    r := Ok(ids);
  }

  /** Section ids keep document order: those of a prefix come first. */
  lemma {:induction false} HashTargetsAppend(a: seq<Node>, b: seq<Node>)
    ensures HashTargets(a + b) == HashTargets(a) + HashTargets(b)
    decreases |b|
  {
    if b == [] {
      assert a + b == a;
    } else {
      assert (a + b)[..|a + b| - 1] == a + b[..|b| - 1];
      HashTargetsAppend(a, b[..|b| - 1]);
    }
  }

  /** `x` is a section id exactly when some `<a>` links to "#x"; other hrefs are skipped. */
  lemma {:induction false} HashTargetsMembership(ds: seq<Node>, x: string)
    ensures x in HashTargets(ds) <==>
            exists i :: 0 <= i < |ds| && IsTag(ds[i], "a") && Attr(ds[i], "href") == Some("#" + x)
  {
    if ds != [] {
      var init, last := ds[..|ds| - 1], ds[|ds| - 1];
      HashTargetsMembership(init, x);
      var href := Attr(last, "href");
      if IsTag(last, "a") && href.Some? && |href.value| > 0 && href.value[0] == '#' {
        assert href.value == "#" + href.value[1..];
      }
      if exists i :: 0 <= i < |ds| && IsTag(ds[i], "a") && Attr(ds[i], "href") == Some("#" + x) {
        var i :| 0 <= i < |ds| && IsTag(ds[i], "a") && Attr(ds[i], "href") == Some("#" + x);
        if i < |ds| - 1 {
          assert init[i] == ds[i];
        } else {
          assert ("#" + x)[1..] == x;
        }
      }
      if x in HashTargets(init) {
        var i :| 0 <= i < |init| && IsTag(init[i], "a") && Attr(init[i], "href") == Some("#" + x);
        assert ds[i] == init[i];
      }
    }
  }

  /**
   * The container is not found exactly when no tag serialises to the TOC line;
   * in particular a missing line (None) never matches, since every tag's
   * markup starts with '<'.
   */
  lemma SectionIdsNotFound(root: Node, toc: Option<Node>)
    ensures SectionIds(root, toc) == Err(ContainerNotFound) <==>
            forall j :: 0 <= j < |AllTags(root)| ==> Serialize(AllTags(root)[j].0) != TocLineMarkup(toc)
    ensures toc.None? ==> SectionIds(root, toc) == Err(ContainerNotFound)
  {
    var paths := AllTags(root);
    if root.Elem? {
      TagPathsAreTags([root], root.children);
    }
    if toc.None? {
      forall j | 0 <= j < |paths| ensures Serialize(paths[j].0) != "None" {
        assert Serialize(paths[j].0)[0] == '<';
      }
    }
  }
}
