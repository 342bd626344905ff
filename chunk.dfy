/**
 * `chunk` (scrape.py, lines 168-233): every fragment of the partition is cut
 * into chunks in two passes.  Pass 1 walks the tag children of every `<div>`
 * of the fragment and groups them, starting a new group at a `<b>`, a
 * `<table>` or the fragment's own chapter anchor, and otherwise whenever the
 * group's text would outgrow the budget.  Pass 2 packs consecutive groups
 * greedily under the same budget, counting words of the raw markup.  The
 * chunks of fragment `i` are stored under `section_ids[i - 1]`, fragment 0
 * under `'pre-section'`.
 *
 * Pass 1 as written never resets its current group between divs, and pass 2
 * extends list objects that pass 1 may still hold; `AsWrittenChunks` models
 * that aliasing with an explicit store of list objects.  The rest of the
 * model resets the group at every div, which makes both passes plain values.
 */
module Chunking {
  import opened Wrappers
  import opened Strings
  import opened Tree
  import opened Partition

  /**
   * What pass 1 knows of one tag child: its markup `str(tag)`, the number of
   * words of its text `word_count(tag.get_text())`, and whether it must open
   * a new group.
   */
  datatype Item = Item(markup: string, words: nat, opens: bool)

  /** Some `<a>` among `ds` has `name` equal to `name` (`tag.find('a', {'name': name}) is not None`). */
  predicate HasAnchorNamed(ds: seq<Node>, name: string) {
    ds != [] && ((IsTag(ds[0], "a") && Attr(ds[0], "name") == Some(name)) || HasAnchorNamed(ds[1..], name))
  }

  /**
   * The boundary test: the tag is `<b>` or holds one, is a `<table>`, or
   * holds the chapter anchor (only fragments after the first have one).
   */
  predicate Opens(tag: Node, chapter: Option<string>) {
    || IsTag(tag, "b")
    || (tag.Elem? && OpensBelow(tag.children, chapter))
    || IsTag(tag, "table")
  }

  /** Some `<b>`, or the chapter anchor, lies in the forest `cs` (`tag.find(...)` below a tag). */
  predicate OpensBelow(cs: seq<Node>, chapter: Option<string>) {
    var below := Forest(cs);
    || FirstTagIndex(below, "b") < |below|
    || (chapter.Some? && HasAnchorNamed(below, chapter.value))
  }

  function ItemOf(tag: Node, chapter: Option<string>): Item {
    Item(Serialize(tag), WordCount(GetText(tag)), Opens(tag, chapter))
  }

  function ItemsOf(tags: seq<Node>, chapter: Option<string>): (its: seq<Item>)
    ensures |its| == |tags|
  {
    seq(|tags|, t requires 0 <= t < |tags| => ItemOf(tags[t], chapter))
  }

  /** `div.find_all(recursive=False)`: the tag children, bare strings skipped. */
  function TagChildren(cs: seq<Node>): (r: seq<Node>)
    ensures forall i :: 0 <= i < |r| ==> r[i].Elem?
  {
    if cs == [] then []
    else (if cs[0].Elem? then [cs[0]] else []) + TagChildren(cs[1..])
  }

  /** `section_soup.find_all('div')`: every div of the fragment, nested ones included. */
  function Divs(frag: Fragment): seq<Node> {
    TagsNamed(Forest(frag), "div")
  }

  /** The items of every div of the fragment, div by div. */
  function FragmentItems(frag: Fragment, chapter: Option<string>): (r: seq<seq<Item>>)
    ensures |r| == |Divs(frag)|
  {
    var divs := Divs(frag);
    seq(|divs|, d requires 0 <= d < |divs| => ItemsOf(TagChildren(divs[d].children), chapter))
  }

  /** The chapter anchor fragment `i` tests for: `section_ids[i - 1]` from the second fragment on. */
  function Chapter(i: nat, ids: seq<string>): Option<string>
    requires i <= |ids|
  {
    if i >= 1 then Some(ids[i - 1]) else None
  }

  /** The dictionary key of fragment `i`; it is the anchor the fragment's boundary test looks for. */
  function Key(i: nat, ids: seq<string>): (k: string)
    requires i <= |ids|
    ensures i == 0 ==> k == "pre-section"
    ensures Chapter(i, ids).Some? ==> k == Chapter(i, ids).value
    ensures Chapter(i, ids).None? <==> i == 0
  {
    if i - 1 >= 0 then ids[i - 1] else "pre-section"
  }

  // ---------------------------------------------------------------- pass 1

  /** The text words of a group. */
  function Weight(g: seq<Item>): nat {
    if g == [] then 0 else Weight(g[..|g| - 1]) + g[|g| - 1].words
  }

  /** Pass 1 between two children: closed groups, the open group and its word total. */
  datatype Grouping = Grouping(groups: seq<seq<Item>>, open: seq<Item>, words: nat)

  function GroupStep(st: Grouping, it: Item, budget: nat): Grouping {
    if it.opens then Grouping(st.groups + (if st.open != [] then [st.open] else []), [it], it.words)
    else if st.words + it.words <= budget then Grouping(st.groups, st.open + [it], st.words + it.words)
    else Grouping(st.groups + [st.open], [it], it.words)
  }

  function GroupRun(items: seq<Item>, budget: nat): Grouping {
    if items == [] then Grouping([], [], 0)
    else GroupStep(GroupRun(items[..|items| - 1], budget), items[|items| - 1], budget)
  }

  /** The groups pass 1 makes of one div's children (the open group closed at the div's end). */
  function DivGroups(items: seq<Item>, budget: nat): seq<seq<Item>> {
    var st := GroupRun(items, budget);
    st.groups + (if st.open != [] then [st.open] else [])
  }

  /** A group of two or more children is within budget, and only its first child may be a boundary. */
  predicate GoodGroup(g: seq<Item>, budget: nat) {
    && (|g| >= 2 ==> Weight(g) <= budget)
    && (forall j :: 0 < j < |g| ==> !g[j].opens)
  }

  predicate AllGood(gs: seq<seq<Item>>, budget: nat) {
    forall k :: 0 < k + 1 <= |gs| ==> GoodGroup(gs[k], budget)
  }

  lemma WeightSnoc(g: seq<Item>, it: Item)
    ensures Weight(g + [it]) == Weight(g) + it.words
  {
    assert (g + [it])[..|g|] == g;
  }

  /**
   * The shape of pass 1's state after the children `items`: closed groups
   * then the open group hold exactly those children in order, the word total
   * is the open group's, the open group is empty only before the first child,
   * and only the first closed group can be empty.
   */
  predicate Shaped(st: Grouping, items: seq<Item>) {
    && Flatten(st.groups) + st.open == items
    && st.words == Weight(st.open)
    && (st.open == [] <==> items == [])
    && (st.open == [] ==> st.groups == [])
    && (forall k :: 0 < k < |st.groups| ==> st.groups[k] != [])
  }

  lemma ShapedFirst(it: Item)
    ensures Shaped(Grouping([], [it], it.words), [it])
  {
    WeightSnoc([], it);
    assert [] + [it] == [it];
  }

  /** Closing the open group and opening one with the next child keeps the shape. */
  lemma ShapedClose(st: Grouping, items: seq<Item>, it: Item)
    requires Shaped(st, items)
    ensures Shaped(Grouping(st.groups + [st.open], [it], it.words), items + [it])
  {
    FlattenAppend(st.groups, [st.open]);
    assert Flatten([st.open]) == st.open + Flatten([]);
    ShapedFirst(it);
    var gs := st.groups + [st.open];
    forall k | 0 < k < |gs| ensures gs[k] != [] {
      if k < |st.groups| {
        assert gs[k] == st.groups[k];
      }
    }
  }

  /** Adding the next child to the open group keeps the shape. */
  lemma ShapedExtend(st: Grouping, items: seq<Item>, it: Item)
    requires Shaped(st, items)
    ensures Shaped(Grouping(st.groups, st.open + [it], st.words + it.words), items + [it])
  {
    WeightSnoc(st.open, it);
  }

  /** The shape of pass 1's state: the children so far, split into groups in order. */
  lemma {:induction false} GroupRunShape(items: seq<Item>, budget: nat)
    ensures Shaped(GroupRun(items, budget), items)
  {
    if items != [] {
      var init, it := items[..|items| - 1], items[|items| - 1];
      GroupRunShape(init, budget);
      var st := GroupRun(init, budget);
      assert items == init + [it];
      if it.opens && st.open == [] {
        assert init == [] && st.groups + [] == [];
        ShapedFirst(it);
      } else if it.opens || st.words + it.words > budget {
        ShapedClose(st, init, it);
      } else {
        ShapedExtend(st, init, it);
      }
    }
  }

  /** A non-boundary child that fits keeps the open group good. */
  lemma GoodExtend(g: seq<Item>, it: Item, budget: nat)
    requires GoodGroup(g, budget) && !it.opens && Weight(g) + it.words <= budget
    ensures GoodGroup(g + [it], budget)
  {
    WeightSnoc(g, it);
    var r := g + [it];
    forall j | 0 < j < |r| ensures !r[j].opens {
      if j < |g| {
        assert r[j] == g[j];
      }
    }
  }

  lemma AllGoodSnoc(gs: seq<seq<Item>>, g: seq<Item>, budget: nat)
    requires AllGood(gs, budget) && GoodGroup(g, budget)
    ensures AllGood(gs + [g], budget)
  {
    var r := gs + [g];
    forall k | 0 < k + 1 <= |r| ensures GoodGroup(r[k], budget) {
      if k < |gs| {
        assert r[k] == gs[k];
      }
    }
  }

  /** Every group pass 1 closes or holds open is good. */
  lemma {:induction false} GroupRunGood(items: seq<Item>, budget: nat)
    ensures AllGood(GroupRun(items, budget).groups, budget)
    ensures GoodGroup(GroupRun(items, budget).open, budget)
  {
    if items != [] {
      var init, it := items[..|items| - 1], items[|items| - 1];
      GroupRunGood(init, budget);
      GroupRunShape(init, budget);
      var st := GroupRun(init, budget);
      assert GoodGroup([it], budget);
      if it.opens || st.words + it.words > budget {
        if it.opens && st.open == [] {
          assert st.groups + [] == st.groups;
        } else {
          AllGoodSnoc(st.groups, st.open, budget);
        }
      } else {
        GoodExtend(st.open, it, budget);
      }
    }
  }

  /**
   * A child that is not a boundary yet starts a group did not fit: the
   * group before it plus the child is over budget.
   */
  predicate Greedy(gs: seq<seq<Item>>, budget: nat) {
    forall k :: 0 < k < |gs| ==> GreedyAt(gs, k, budget)
  }

  predicate GreedyAt(gs: seq<seq<Item>>, k: nat, budget: nat)
    requires 0 < k < |gs|
  {
    gs[k] != [] && (!gs[k][0].opens ==> Weight(gs[k - 1]) + gs[k][0].words > budget)
  }

  lemma GreedySnoc(gs: seq<seq<Item>>, g: seq<Item>, budget: nat)
    requires Greedy(gs, budget) && g != []
    requires gs != [] && !g[0].opens ==> Weight(gs[|gs| - 1]) + g[0].words > budget
    ensures Greedy(gs + [g], budget)
  {
    var r: seq<seq<Item>> := gs + [g];
    forall k | 0 < k < |r| ensures GreedyAt(r, k, budget) {
      if k < |gs| {
        assert r[k] == gs[k] && r[k - 1] == gs[k - 1];
        assert GreedyAt(gs, k, budget);
      } else {
        assert r[k] == g && r[k - 1] == gs[|gs| - 1];
      }
    }
  }

  lemma GreedyReplaceLast(gs: seq<seq<Item>>, x: seq<Item>, y: seq<Item>, budget: nat)
    requires Greedy(gs + [x], budget) && x != [] && y != [] && x[0] == y[0]
    ensures Greedy(gs + [y], budget)
  {
    var r: seq<seq<Item>>, q: seq<seq<Item>> := gs + [y], gs + [x];
    forall k | 0 < k < |r| ensures GreedyAt(r, k, budget) {
      assert r[k - 1] == q[k - 1];
      assert GreedyAt(q, k, budget);
      if k < |gs| {
        assert r[k] == q[k];
      } else {
        assert r[k] == y && q[k] == x;
      }
    }
  }

  lemma {:induction false} GroupRunGreedy(items: seq<Item>, budget: nat)
    ensures var st := GroupRun(items, budget);
            Greedy(st.groups + (if st.open != [] then [st.open] else []), budget)
  {
    if items != [] {
      var init, it := items[..|items| - 1], items[|items| - 1];
      GroupRunGreedy(init, budget);
      GroupRunShape(init, budget);
      var st := GroupRun(init, budget);
      var before := st.groups + (if st.open != [] then [st.open] else []);
      if st.open == [] {
        assert st.groups == [] by { assert init == []; }
        if !it.opens && st.words + it.words > budget {
          var r: seq<seq<Item>> := [[], [it]];
          assert Weight(r[0]) == 0;
          assert Greedy(r, budget);
        }
      } else if it.opens {
        GreedySnoc(before, [it], budget);
      } else if st.words + it.words <= budget {
        GreedyReplaceLast(st.groups, st.open, st.open + [it], budget);
      } else {
        GreedySnoc(before, [it], budget);
        assert before + [[it]] == st.groups + [st.open] + [[it]];
      }
    }
  }

  /** Pass 1 on one div puts every child in exactly one group, in order. */
  lemma DivGroupsPartition(items: seq<Item>, budget: nat)
    ensures Flatten(DivGroups(items, budget)) == items
  {
    var st := GroupRun(items, budget);
    GroupRunShape(items, budget);
    FlattenAppend(st.groups, if st.open != [] then [st.open] else []);
    assert Flatten([st.open]) == st.open + Flatten([]);
  }

  /**
   * Pass 1 on one div: every group of two or more children is within
   * budget, a boundary child is always first in its group, a child that is
   * not a boundary opens a group only when it did not fit the one before,
   * and only the first group can be empty.
   */
  lemma DivGroupsProperties(items: seq<Item>, budget: nat)
    ensures AllGood(DivGroups(items, budget), budget)
    ensures Greedy(DivGroups(items, budget), budget)
  {
    GroupRunGood(items, budget);
    GroupRunGreedy(items, budget);
  }

  /** The groups of a fragment: the groups of each div in turn. */
  function SectionGroups(divs: seq<seq<Item>>, budget: nat): seq<seq<Item>> {
    if divs == [] then []
    else SectionGroups(divs[..|divs| - 1], budget) + DivGroups(divs[|divs| - 1], budget)
  }

  /** Over a whole fragment pass 1 keeps every tag child of every div once, in order. */
  lemma {:induction false} SectionGroupsPartition(divs: seq<seq<Item>>, budget: nat)
    ensures Flatten(SectionGroups(divs, budget)) == Flatten(divs)
  {
    if divs != [] {
      var init, last := divs[..|divs| - 1], divs[|divs| - 1];
      SectionGroupsPartition(init, budget);
      DivGroupsPartition(last, budget);
      FlattenStep(SectionGroups(init, budget), DivGroups(last, budget), init, last);
      assert divs == init + [last];
    }
  }

  /** Over a whole fragment every group is good. */
  lemma {:induction false} SectionGroupsGood(divs: seq<seq<Item>>, budget: nat)
    ensures AllGood(SectionGroups(divs, budget), budget)
  {
    if divs != [] {
      var init, last := divs[..|divs| - 1], divs[|divs| - 1];
      SectionGroupsGood(init, budget);
      DivGroupsProperties(last, budget);
      var a, b := SectionGroups(init, budget), DivGroups(last, budget);
      forall k | 0 < k + 1 <= |a + b| ensures GoodGroup((a + b)[k], budget) {
        if k < |a| {
          assert (a + b)[k] == a[k];
        } else {
          assert (a + b)[k] == b[k - |a|];
        }
      }
    }
  }

  lemma ItemsOfSnoc(tags: seq<Node>, t: nat, chapter: Option<string>)
    requires t < |tags|
    ensures ItemsOf(tags[..t + 1], chapter) == ItemsOf(tags[..t], chapter) + [ItemOf(tags[t], chapter)]
  {
    assert tags[..t + 1] == tags[..t] + [tags[t]];
  }

  /** The loop body of pass 1 for one child. */
  method Place(groups: seq<seq<Item>>, current: seq<Item>, words: nat, it: Item, budget: nat)
    returns (groups': seq<seq<Item>>, current': seq<Item>, words': nat)
    ensures Grouping(groups', current', words') == GroupStep(Grouping(groups, current, words), it, budget)
  {
    groups', current', words' := groups, current, words;
    if it.opens {
      if current != [] {
        groups' := groups + [current];
      }
      current' := [it];
      words' := it.words;
    } else if words + it.words <= budget {
      current' := current + [it];
      words' := words + it.words;
    } else {
      groups' := groups + [current];
      current' := [it];
      words' := it.words;
    }
  }

  /**
   * The pass-1 loop over one div's tag children, with the open group reset
   * at the div's start.
   */
  method GroupDiv(tags: seq<Node>, chapter: Option<string>, budget: nat) returns (groups: seq<seq<Item>>)
    ensures groups == DivGroups(ItemsOf(tags, chapter), budget)
  {
    groups := [];
    var current: seq<Item> := [];
    var words: nat := 0;
    for t := 0 to |tags|
      invariant GroupRun(ItemsOf(tags[..t], chapter), budget) == Grouping(groups, current, words)
    {
      var it := ItemOf(tags[t], chapter);
      ItemsOfSnoc(tags, t, chapter);
      groups, current, words := Place(groups, current, words, it, budget);
    }
    assert tags[..|tags|] == tags;
    if current != [] {
      groups := groups + [current];
    }
  }

  lemma SectionGroupsSnoc(divs: seq<seq<Item>>, d: nat, budget: nat)
    requires d < |divs|
    ensures SectionGroups(divs[..d + 1], budget) == SectionGroups(divs[..d], budget) + DivGroups(divs[d], budget)
  {
    assert divs[..d + 1][..d] == divs[..d];
  }

  /** Pass 1 over every div of a fragment. */
  method GroupFragment(frag: Fragment, chapter: Option<string>, budget: nat) returns (groups: seq<seq<Item>>)
    ensures groups == SectionGroups(FragmentItems(frag, chapter), budget)
  {
    var divs := Divs(frag);
    ghost var items := FragmentItems(frag, chapter);
    groups := [];
    for d := 0 to |divs|
      invariant groups == SectionGroups(items[..d], budget)
    {
      var g := GroupDiv(TagChildren(divs[d].children), chapter, budget);
      SectionGroupsSnoc(items, d, budget);
      groups := groups + g;
    }
    assert items[..|divs|] == items;
  }

  // ---------------------------------------------------------------- pass 2

  /** The markup strings of a group: pass 1's `current_chunk` list. */
  function Markups(g: seq<Item>): (ms: seq<string>)
    ensures |ms| == |g|
  {
    seq(|g|, j requires 0 <= j < |g| => g[j].markup)
  }

  function MarkupGroups(gs: seq<seq<Item>>): (r: seq<seq<string>>)
    ensures |r| == |gs|
  {
    seq(|gs|, k requires 0 <= k < |gs| => Markups(gs[k]))
  }

  /** `word_count(' '.join(chunk))`: the markup words of a list of strings. */
  function MarkupWords(c: seq<string>): nat {
    WordCount(JoinSpace(c))
  }

  /** Markup words add up over concatenated lists. */
  lemma MarkupWordsAppend(a: seq<string>, b: seq<string>)
    ensures MarkupWords(a + b) == MarkupWords(a) + MarkupWords(b)
  {
    WordCountOfJoin(a + b);
    WordCountOfJoin(a);
    WordCountOfJoin(b);
    SumWordsAppend(a, b);
  }

  /** Pass 2 between two groups: closed chunks, the open chunk and its markup words. */
  datatype Packing = Packing(chunks: seq<seq<string>>, open: seq<string>, words: nat)

  function PackStep(st: Packing, g: seq<string>, budget: nat): Packing {
    var w := MarkupWords(g);
    if st.words + w <= budget then Packing(st.chunks, st.open + g, st.words + w)
    else Packing(st.chunks + [st.open], g, w)
  }

  function PackRun(gs: seq<seq<string>>, budget: nat): Packing {
    if gs == [] then Packing([], [], 0)
    else PackStep(PackRun(gs[..|gs| - 1], budget), gs[|gs| - 1], budget)
  }

  /** The chunks pass 2 makes of the groups `gs`. */
  function Packed(gs: seq<seq<string>>, budget: nat): seq<seq<string>> {
    var st := PackRun(gs, budget);
    st.chunks + (if st.open != [] then [st.open] else [])
  }

  /** A chunk is within budget, or is one group of pass 1 on its own. */
  predicate Fits(c: seq<string>, gs: seq<seq<string>>, budget: nat) {
    MarkupWords(c) <= budget || c in gs
  }

  /**
   * Pass 2's state after the groups `gs`: closed chunks then the open chunk
   * hold the groups' markup in order, and the word total is the open chunk's.
   */
  predicate PackOrdered(st: Packing, gs: seq<seq<string>>) {
    && Flatten(st.chunks) + st.open == Flatten(gs)
    && st.words == MarkupWords(st.open)
  }

  /** Every chunk of pass 2's state, closed or open, fits. */
  predicate PackFits(st: Packing, gs: seq<seq<string>>, budget: nat) {
    && (forall j :: 0 <= j < |st.chunks| ==> Fits(st.chunks[j], gs, budget))
    && Fits(st.open, gs, budget)
  }

  /** A chunk that fits among the groups `gs` still fits once more groups follow. */
  lemma FitsWiden(cs: seq<seq<string>>, gs: seq<seq<string>>, g: seq<string>, budget: nat)
    requires forall j :: 0 <= j < |cs| ==> Fits(cs[j], gs, budget)
    ensures forall j :: 0 <= j < |cs| ==> Fits(cs[j], gs + [g], budget)
  {
    forall j | 0 <= j < |cs| ensures Fits(cs[j], gs + [g], budget) {
      assert Fits(cs[j], gs, budget);
    }
  }

  /** Appending the next group to the open chunk keeps the markup in order. */
  lemma OrderedExtend(st: Packing, gs: seq<seq<string>>, g: seq<string>)
    requires PackOrdered(st, gs)
    ensures PackOrdered(Packing(st.chunks, st.open + g, st.words + MarkupWords(g)), gs + [g])
  {
    assert Flatten(st.chunks) + (st.open + g) == Flatten(gs + [g]) by {
      FlattenSnoc(gs, g);
    }
    assert MarkupWords(st.open + g) == st.words + MarkupWords(g) by {
      MarkupWordsAppend(st.open, g);
    }
  }

  /** Closing the open chunk and opening one with the next group keeps the markup in order. */
  lemma OrderedClose(st: Packing, gs: seq<seq<string>>, g: seq<string>)
    requires PackOrdered(st, gs)
    ensures PackOrdered(Packing(st.chunks + [st.open], g, MarkupWords(g)), gs + [g])
  {
    FlattenSnoc(gs, g);
    FlattenSnoc(st.chunks, st.open);
  }

  /** A group added to an open chunk within budget keeps every chunk fitting. */
  lemma FitsExtend(st: Packing, gs: seq<seq<string>>, g: seq<string>, budget: nat)
    requires PackFits(st, gs, budget) && MarkupWords(st.open + g) <= budget
    ensures PackFits(Packing(st.chunks, st.open + g, st.words + MarkupWords(g)), gs + [g], budget)
  {
    FitsWiden(st.chunks, gs, g, budget);
  }

  /** A group that opens a chunk of its own keeps every chunk fitting. */
  lemma FitsClose(st: Packing, gs: seq<seq<string>>, g: seq<string>, budget: nat)
    requires PackFits(st, gs, budget)
    ensures PackFits(Packing(st.chunks + [st.open], g, MarkupWords(g)), gs + [g], budget)
  {
    var cs := st.chunks + [st.open];
    forall j | 0 <= j < |cs| ensures Fits(cs[j], gs, budget) {
      if j < |st.chunks| {
        assert cs[j] == st.chunks[j];
      }
    }
    FitsWiden(cs, gs, g, budget);
    assert (gs + [g])[|gs|] == g;
  }

  /**
   * Pass 2's state after the groups `gs`: the markup in order, the word total
   * the open chunk's, and every chunk fitting.
   */
  lemma {:induction false} PackRunFacts(gs: seq<seq<string>>, budget: nat)
    ensures PackOrdered(PackRun(gs, budget), gs)
    ensures PackFits(PackRun(gs, budget), gs, budget)
  {
    if gs == [] {
      assert MarkupWords([]) == 0 by { WordCountOfJoin([]); }
    } else {
      var init, g := gs[..|gs| - 1], gs[|gs| - 1];
      PackRunFacts(init, budget);
      var st := PackRun(init, budget);
      assert gs == init + [g];
      if st.words + MarkupWords(g) <= budget {
        OrderedExtend(st, init, g);
        FitsExtend(st, init, g, budget);
      } else {
        OrderedClose(st, init, g);
        FitsClose(st, init, g, budget);
      }
    }
  }

  /** Pass 2 keeps the markup of the groups, in order, without loss or repetition. */
  lemma PackedPreservesOrder(gs: seq<seq<string>>, budget: nat)
    ensures Flatten(Packed(gs, budget)) == Flatten(gs)
  {
    var st := PackRun(gs, budget);
    PackRunFacts(gs, budget);
    FlattenAppend(st.chunks, if st.open != [] then [st.open] else []);
    assert Flatten([st.open]) == st.open + Flatten([]);
  }

  /**
   * Every chunk's markup words (`word_count(' '.join(chunk))`) are within
   * budget, unless the chunk is a single group of pass 1.
   */
  lemma PackedWithinBudget(gs: seq<seq<string>>, budget: nat)
    ensures forall j :: 0 <= j < |Packed(gs, budget)| ==> Fits(Packed(gs, budget)[j], gs, budget)
  {
    PackRunFacts(gs, budget);
  }

  /** The pass-2 loop. */
  method PackGroups(gs: seq<seq<string>>, budget: nat) returns (chunks: seq<seq<string>>)
    ensures chunks == Packed(gs, budget)
  {
    chunks := [];
    var current: seq<string> := [];
    var words: nat := 0;
    for k := 0 to |gs|
      invariant PackRun(gs[..k], budget) == Packing(chunks, current, words)
    {
      var g := gs[k];
      assert gs[..k + 1][..k] == gs[..k];
      var w := WordCount(JoinSpace(g));
      if words + w <= budget {
        current := current + g;
        words := words + w;
      } else {
        chunks := chunks + [current];
        current := g;
        words := w;
      }
    }
    assert gs[..|gs|] == gs;
    if current != [] {
      chunks := chunks + [current];
    }
  }

  // ---------------------------------------------------------------- chunk

  /** The chunk strings of a fragment whose divs hold the items `divs`. */
  function CorrectedChunks(divs: seq<seq<Item>>, budget: nat): (r: seq<string>)
    ensures |r| == |Packed(MarkupGroups(SectionGroups(divs, budget)), budget)|
  {
    var packed := Packed(MarkupGroups(SectionGroups(divs, budget)), budget);
    seq(|packed|, j requires 0 <= j < |packed| => Concat(packed[j]))
  }

  /** `[''.join(chunk) for chunk in curr_chapter_chunks]` for one fragment. */
  function FragmentChunks(frag: Fragment, chapter: Option<string>, budget: nat): seq<string> {
    CorrectedChunks(FragmentItems(frag, chapter), budget)
  }

  /** Joining each chunk and then the chunks joins all their strings in order. */
  lemma {:induction false} ConcatChunks(cs: seq<seq<string>>)
    ensures Concat(seq(|cs|, j requires 0 <= j < |cs| => Concat(cs[j]))) == Concat(Flatten(cs))
  {
    if cs != [] {
      var joined := seq(|cs|, j requires 0 <= j < |cs| => Concat(cs[j]));
      var rest := cs[1..];
      assert joined[1..] == seq(|rest|, j requires 0 <= j < |rest| => Concat(rest[j]));
      ConcatChunks(rest);
      ConcatAppend(cs[0], Flatten(rest));
    }
  }

  /** The markup of the groups, group after group, is the markup of their children. */
  lemma {:induction false} MarkupGroupsFlatten(gs: seq<seq<Item>>)
    ensures Flatten(MarkupGroups(gs)) == Markups(Flatten(gs))
  {
    if gs != [] {
      assert MarkupGroups(gs)[1..] == MarkupGroups(gs[1..]);
      MarkupGroupsFlatten(gs[1..]);
      assert Markups(gs[0] + Flatten(gs[1..])) == Markups(gs[0]) + Markups(Flatten(gs[1..]));
    }
  }

  /**
   * With the group reset at every div, the chunks of a fragment, joined, are
   * the markup of every div's tag children, each once and in order.
   */
  lemma CorrectedChunksKeepMarkup(divs: seq<seq<Item>>, budget: nat)
    ensures Concat(CorrectedChunks(divs, budget)) == Concat(Markups(Flatten(divs)))
  {
    var gs := SectionGroups(divs, budget);
    ConcatChunks(Packed(MarkupGroups(gs), budget));
    PackedPreservesOrder(MarkupGroups(gs), budget);
    MarkupGroupsFlatten(gs);
    SectionGroupsPartition(divs, budget);
  }

  /** The body of the fragment loop: both passes, then the chunk strings. */
  method ChunkFragment(frag: Fragment, chapter: Option<string>, budget: nat) returns (chunks: seq<string>)
    ensures chunks == FragmentChunks(frag, chapter, budget)
  {
    var groups := GroupFragment(frag, chapter, budget);
    var packed := PackGroups(MarkupGroups(groups), budget);
    chunks := seq(|packed|, j requires 0 <= j < |packed| => Concat(packed[j]));
  }

  /** The chunk strings of every fragment, fragment `i` tested against its own chapter anchor. */
  function AllChunks(frags: seq<Fragment>, ids: seq<string>, budget: nat): (vs: seq<seq<string>>)
    requires |frags| <= |ids| + 1
    ensures |vs| == |frags|
  {
    seq(|frags|, i requires 0 <= i < |frags| => FragmentChunks(frags[i], Chapter(i, ids), budget))
  }

  /** The dictionary after storing `vals[i]` under the key of each `i` in turn, later keys overwriting earlier ones. */
  function DictOf(vals: seq<seq<string>>, ids: seq<string>): map<string, seq<string>>
    requires |vals| <= |ids| + 1
  {
    if vals == [] then map[]
    else
      var i := |vals| - 1;
      DictOf(vals[..i], ids)[Key(i, ids) := vals[i]]
  }

  lemma DictOfStep(vals: seq<seq<string>>, ids: seq<string>, i: nat)
    requires i < |vals| <= |ids| + 1
    ensures DictOf(vals[..i + 1], ids) == DictOf(vals[..i], ids)[Key(i, ids) := vals[i]]
  {
    assert vals[..i + 1][..i] == vals[..i];
  }

  /** No later index up to `n` shares index `i`'s key. */
  predicate LastWithKey(n: nat, ids: seq<string>, i: nat)
    requires i < n <= |ids| + 1
  {
    forall j :: i < j < n ==> Key(j, ids) != Key(i, ids)
  }

  /** The dictionary's keys are the keys of the fragment indices: `'pre-section'` for 0, `section_ids[i - 1]` for `i`. */
  lemma {:induction false} DictOfKeys(vals: seq<seq<string>>, ids: seq<string>)
    requires |vals| <= |ids| + 1
    ensures DictOf(vals, ids).Keys == set i: nat | i < |vals| :: Key(i, ids)
  {
    if vals != [] {
      var n := |vals| - 1;
      DictOfKeys(vals[..n], ids);
      var before := set i: nat | i < n :: Key(i, ids);
      assert (set i: nat | i < |vals| :: Key(i, ids)) == before + {Key(n, ids)};
    }
  }

  /** Each key holds the value of the last index that has it. */
  lemma {:induction false} DictOfLatest(vals: seq<seq<string>>, ids: seq<string>, i: nat)
    requires |vals| <= |ids| + 1
    requires i < |vals| && LastWithKey(|vals|, ids, i)
    ensures Key(i, ids) in DictOf(vals, ids) && DictOf(vals, ids)[Key(i, ids)] == vals[i]
  {
    var n := |vals| - 1;
    if i < n {
      assert Key(n, ids) != Key(i, ids);
      assert LastWithKey(n, ids, i);
      DictOfLatest(vals[..n], ids, i);
    }
  }

  /**
   * With distinct section ids, none of them `'pre-section'`, every fragment
   * has its own key and its chunks stay in the dictionary.
   */
  lemma DistinctIdsKeepEveryFragment(vals: seq<seq<string>>, ids: seq<string>)
    requires |vals| <= |ids| + 1
    requires forall a, b :: 0 <= a < b < |ids| ==> ids[a] != ids[b]
    requires "pre-section" !in ids
    ensures forall i: nat :: i < |vals| ==> Key(i, ids) in DictOf(vals, ids) && DictOf(vals, ids)[Key(i, ids)] == vals[i]
  {
    forall i: nat | i < |vals|
      ensures Key(i, ids) in DictOf(vals, ids) && DictOf(vals, ids)[Key(i, ids)] == vals[i]
    {
      forall j | i < j < |vals| ensures Key(j, ids) != Key(i, ids) {
        assert Key(j, ids) == ids[j - 1];
        if i > 0 {
          assert Key(i, ids) == ids[i - 1];
        }
      }
      assert LastWithKey(|vals|, ids, i);
      DictOfLatest(vals, ids, i);
    }
  }

  /**
   * The keys of the dictionary after the first `n` fragments, in the order a
   * Python dict iterates them: a key takes its place when first stored, and
   * overwriting it later keeps that place.
   */
  function KeyOrder(n: nat, ids: seq<string>): seq<string>
    requires n <= |ids| + 1
  {
    if n == 0 then []
    else
      var ks := KeyOrder(n - 1, ids);
      if Key(n - 1, ids) in ks then ks else ks + [Key(n - 1, ids)]
  }

  /** The ordered keys are distinct, and are exactly the keys of the first `n` fragments. */
  lemma {:induction false} KeyOrderKeys(n: nat, ids: seq<string>)
    requires n <= |ids| + 1
    ensures forall a, b :: 0 <= a < b < |KeyOrder(n, ids)| ==> KeyOrder(n, ids)[a] != KeyOrder(n, ids)[b]
    ensures (set k | k in KeyOrder(n, ids)) == set i: nat | i < n :: Key(i, ids)
  {
    if n > 0 {
      KeyOrderKeys(n - 1, ids);
      var before := set i: nat | i < n - 1 :: Key(i, ids);
      assert (set i: nat | i < n :: Key(i, ids)) == before + {Key(n - 1, ids)};
    }
  }

  /** Keys stored earlier come first: the order after `m` fragments is a prefix of the order after `n`. */
  lemma {:induction false} KeyOrderPrefix(m: nat, n: nat, ids: seq<string>)
    requires m <= n <= |ids| + 1
    ensures KeyOrder(m, ids) <= KeyOrder(n, ids)
    decreases n - m
  {
    if m < n {
      KeyOrderPrefix(m, n - 1, ids);
    }
  }

  /** With distinct section ids, none of them `'pre-section'`, the keys come in fragment order. */
  lemma {:induction false} KeyOrderOfDistinctIds(n: nat, ids: seq<string>)
    requires n <= |ids| + 1
    requires forall a, b :: 0 <= a < b < |ids| ==> ids[a] != ids[b]
    requires "pre-section" !in ids
    ensures KeyOrder(n, ids) == seq(n, i requires 0 <= i < n => Key(i, ids))
  {
    if n > 0 {
      KeyOrderOfDistinctIds(n - 1, ids);
      var ks := KeyOrder(n - 1, ids);
      forall j | 0 <= j < n - 1 ensures ks[j] != Key(n - 1, ids) {
        assert ks[j] == Key(j, ids);
      }
    }
  }

  /** A key is already in the dictionary exactly when it is already in the key order. */
  lemma KeysStep(vals: seq<seq<string>>, ids: seq<string>, i: nat)
    requires i < |vals| <= |ids| + 1
    ensures KeyOrder(i + 1, ids) ==
              if Key(i, ids) in DictOf(vals[..i], ids) then KeyOrder(i, ids) else KeyOrder(i, ids) + [Key(i, ids)]
    ensures DictOf(vals[..i + 1], ids) == DictOf(vals[..i], ids)[Key(i, ids) := vals[i]]
  {
    DictOfKeys(vals[..i], ids);
    KeyOrderKeys(i, ids);
    DictOfStep(vals, ids, i);
  }

  /**
   * `chunk_dict[key] = value` on a dict whose keys, in insertion order, are
   * `keys`: a new key goes last, an existing one keeps its place.
   */
  method Store(dict: map<string, seq<string>>, keys: seq<string>, key: string, value: seq<string>)
    returns (dict': map<string, seq<string>>, keys': seq<string>)
    ensures dict' == dict[key := value]
    ensures keys' == if key in dict then keys else keys + [key]
  {
    keys' := keys;
    if key !in dict {
      keys' := keys + [key];
    }
    dict' := dict[key := value];
  }

  /**
   * One pass of the fragment loop of `chunk`: both passes on fragment `i`,
   * its chunks stored under `section_ids[i - 1]` (`'pre-section'` for the
   * first).  `keys` is the order in which the dict remembers its keys.
   */
  method ChunkOne(sections: seq<Fragment>, ids: seq<string>, budget: nat, i: nat,
                  dict: map<string, seq<string>>, keys: seq<string>)
    returns (dict': map<string, seq<string>>, keys': seq<string>)
    requires i < |sections| <= |ids| + 1
    requires dict == DictOf(AllChunks(sections, ids, budget)[..i], ids) && keys == KeyOrder(i, ids)
    ensures dict' == DictOf(AllChunks(sections, ids, budget)[..i + 1], ids)
    ensures keys' == KeyOrder(i + 1, ids)
  {
    var chapter := if i >= 1 then Some(ids[i - 1]) else None;
    var chunks := ChunkFragment(sections[i], chapter, budget);
    var key := if i - 1 >= 0 then ids[i - 1] else "pre-section";
    assert key == Key(i, ids) && AllChunks(sections, ids, budget)[i] == chunks;
    KeysStep(AllChunks(sections, ids, budget), ids, i);
    dict', keys' := Store(dict, keys, key, chunks);
  }

  /**
   * The fragment loop of `chunk`.  The source indexes `section_ids[i - 1]`
   * for every fragment after the first, so it demands no more fragments than
   * ids plus one.
   */
  method ChunkSections(sections: seq<Fragment>, ids: seq<string>, budget: nat)
    returns (dict: map<string, seq<string>>, keys: seq<string>)
    requires |sections| <= |ids| + 1
    ensures dict == DictOf(AllChunks(sections, ids, budget), ids)
    ensures keys == KeyOrder(|sections|, ids)
  {
    dict := map[];
    keys := [];
    for i := 0 to |sections|
      invariant dict == DictOf(AllChunks(sections, ids, budget)[..i], ids)
      invariant keys == KeyOrder(i, ids)
    {
      dict, keys := ChunkOne(sections, ids, budget, i, dict, keys);
    }
    assert AllChunks(sections, ids, budget)[..|sections|] == AllChunks(sections, ids, budget);
  }

  /** `chunk`: partition the document, then chunk and key every fragment. */
  method Chunk(root: Node, ids: seq<string>, budget: nat) returns (dict: map<string, seq<string>>, keys: seq<string>)
    requires Splittable(root, ids) && FlatPages(root)
    requires |PartitionOf(Pages(root), ids)| <= |ids| + 1
    ensures dict == DictOf(AllChunks(PartitionOf(Pages(root), ids), ids, budget), ids)
    ensures keys == KeyOrder(|PartitionOf(Pages(root), ids)|, ids)
  {
    var sections := SplitHtmlIntoSections(root, ids);
    dict, keys := ChunkSections(sections, ids, budget);
  }

  /**
   * When the first page with a div lists no anchor and the listed anchors
   * are exactly the section ids, there is one fragment more than there are
   * ids, so every key lookup of `chunk` is in range.
   */
  lemma ChunkKeysInRange(root: Node, ids: seq<string>)
    requires Splittable(root, ids)
    requires Lead(Pages(root), ids) && AllNames(Pages(root), ids) == ids
    ensures |PartitionOf(Pages(root), ids)| == |ids| + 1
  {
    PartitionCount(Pages(root), ids);
  }

  // ------------------------------------------------- the aliasing as written

  /**
   * Pass 1 with Python's list objects made explicit: `store[r]` is the
   * content of list object `r`, `chunks` the references in `section_chunks`,
   * `cur` the object `current_chunk` refers to.
   */
  datatype Heap1 = Heap1(store: seq<seq<string>>, chunks: seq<nat>, cur: nat, words: nat)

  predicate Heap1Ok(h: Heap1) {
    h.cur < |h.store| && forall i :: 0 <= i < |h.chunks| ==> h.chunks[i] < |h.store|
  }

  /** `current_chunk = [s]`: a fresh list object. */
  function Fresh(h: Heap1, s: string, w: nat): (h': Heap1)
    requires Heap1Ok(h)
    ensures Heap1Ok(h')
  {
    Heap1(h.store + [[s]], h.chunks, |h.store|, w)
  }

  /** `section_chunks.append(current_chunk)`: appends a reference, not a copy. */
  function Push(h: Heap1): (h': Heap1)
    requires Heap1Ok(h)
    ensures Heap1Ok(h')
  {
    h.(chunks := h.chunks + [h.cur])
  }

  function HeapItem(h: Heap1, it: Item, budget: nat): (h': Heap1)
    requires Heap1Ok(h)
    ensures Heap1Ok(h')
  {
    if it.opens then Fresh(if h.store[h.cur] != [] then Push(h) else h, it.markup, it.words)
    else if h.words + it.words <= budget then
      h.(store := h.store[h.cur := h.store[h.cur] + [it.markup]], words := h.words + it.words)
    else Fresh(Push(h), it.markup, it.words)
  }

  function HeapItems(h: Heap1, items: seq<Item>, budget: nat): (h': Heap1)
    requires Heap1Ok(h)
    ensures Heap1Ok(h')
    decreases |items|
  {
    if items == [] then h else HeapItems(HeapItem(h, items[0], budget), items[1..], budget)
  }

  /** The end of a div: the open list is appended again, and not reset. */
  function HeapDivs(h: Heap1, divs: seq<seq<Item>>, budget: nat): (h': Heap1)
    requires Heap1Ok(h)
    ensures Heap1Ok(h')
    decreases |divs|
  {
    if divs == [] then h
    else
      var h1 := HeapItems(h, divs[0], budget);
      HeapDivs(if h1.store[h1.cur] != [] then Push(h1) else h1, divs[1..], budget)
  }

  /** Pass 2 over the same store: `current_chunk = chunk` aliases, `extend` mutates. */
  datatype Heap2 = Heap2(store: seq<seq<string>>, out: seq<nat>, cur: nat, words: nat)

  predicate Heap2Ok(p: Heap2) {
    p.cur < |p.store| && forall i :: 0 <= i < |p.out| ==> p.out[i] < |p.store|
  }

  function HeapPack(p: Heap2, refs: seq<nat>, budget: nat): (p': Heap2)
    requires Heap2Ok(p) && forall i :: 0 <= i < |refs| ==> refs[i] < |p.store|
    ensures Heap2Ok(p') && |p'.store| == |p.store|
    decreases |refs|
  {
    if refs == [] then p
    else
      var r := refs[0];
      var w := MarkupWords(p.store[r]);
      var p1 :=
        if p.words + w <= budget then
          p.(store := p.store[p.cur := p.store[p.cur] + p.store[r]], words := p.words + w)
        else p.(out := p.out + [p.cur], cur := r, words := w);
      HeapPack(p1, refs[1..], budget)
  }

  /** The chunk strings of a fragment as the source computes them, aliasing included. */
  function AsWrittenChunks(divs: seq<seq<Item>>, budget: nat): seq<string> {
    var h := HeapDivs(Heap1([[]], [], 0, 0), divs, budget);
    var p := HeapPack(Heap2(h.store + [[]], [], |h.store|, 0), h.chunks, budget);
    var out := if p.store[p.cur] != [] then p.out + [p.cur] else p.out;
    seq(|out|, j requires 0 <= j < |out| => Concat(p.store[out[j]]))
  }

  /**
   * The store of pass 1 stands for the grouping `st`: the listed objects
   * hold the closed groups' markup, the open object the open group's, and
   * every listed object is older than the open one.
   */
  predicate Mirrors1(h: Heap1, st: Grouping) {
    && Heap1Ok(h)
    && |h.chunks| == |st.groups|
    && (forall k :: 0 <= k < |h.chunks| ==> h.chunks[k] < h.cur && h.store[h.chunks[k]] == Markups(st.groups[k]))
    && (forall a, b :: 0 <= a < b < |h.chunks| ==> h.chunks[a] < h.chunks[b])
    && h.store[h.cur] == Markups(st.open)
    && h.words == st.words
  }

  /** One child moves the store and the grouping alike. */
  lemma Mirrors1Step(h: Heap1, st: Grouping, it: Item, budget: nat)
    requires Mirrors1(h, st)
    ensures Mirrors1(HeapItem(h, it, budget), GroupStep(st, it, budget))
  {
    assert Markups([it]) == [it.markup];
    if !it.opens && h.words + it.words <= budget {
      assert Markups(st.open + [it]) == Markups(st.open) + [it.markup];
    }
  }

  lemma {:induction false} HeapItemsSnoc(h: Heap1, items: seq<Item>, it: Item, budget: nat)
    requires Heap1Ok(h)
    ensures HeapItems(h, items + [it], budget) == HeapItem(HeapItems(h, items, budget), it, budget)
    decreases |items|
  {
    if items == [] {
      assert [] + [it] == [it];
    } else {
      assert (items + [it])[1..] == items[1..] + [it];
      HeapItemsSnoc(HeapItem(h, items[0], budget), items[1..], it, budget);
    }
  }

  /** Pass 1 on a first div, as written, mirrors the grouping of its children. */
  lemma {:induction false} Mirrors1Run(items: seq<Item>, budget: nat)
    ensures Mirrors1(HeapItems(Heap1([[]], [], 0, 0), items, budget), GroupRun(items, budget))
  {
    if items != [] {
      var init, it := items[..|items| - 1], items[|items| - 1];
      Mirrors1Run(init, budget);
      assert init + [it] == items;
      HeapItemsSnoc(Heap1([[]], [], 0, 0), init, it, budget);
      Mirrors1Step(HeapItems(Heap1([[]], [], 0, 0), init, budget), GroupRun(init, budget), it, budget);
    }
  }

  /** The objects `refs`, in increasing order, hold the lists `gs`. */
  predicate Listed(store: seq<seq<string>>, refs: seq<nat>, gs: seq<seq<string>>) {
    && |refs| == |gs|
    && (forall i :: 0 <= i < |refs| ==> refs[i] < |store| && store[refs[i]] == gs[i])
    && (forall a, b :: 0 <= a < b < |refs| ==> refs[a] < refs[b])
  }

  /** Closing the div lists the open object, when it holds anything, after the closed ones. */
  lemma ListedAtDivEnd(h: Heap1, st: Grouping)
    requires Mirrors1(h, st)
    ensures var h' := if h.store[h.cur] != [] then Push(h) else h;
            Listed(h'.store, h'.chunks, MarkupGroups(st.groups + (if st.open != [] then [st.open] else [])))
  {
    var gs := st.groups + (if st.open != [] then [st.open] else []);
    assert |Markups(st.open)| == |st.open|;
  }

  /** On a fragment with at most one div, pass 1 as written lists the corrected groups, each once. */
  lemma PassOneListed(divs: seq<seq<Item>>, budget: nat)
    requires |divs| <= 1
    ensures var h := HeapDivs(Heap1([[]], [], 0, 0), divs, budget);
            Listed(h.store, h.chunks, MarkupGroups(SectionGroups(divs, budget)))
  {
    if divs != [] {
      var h0 := Heap1([[]], [], 0, 0);
      var items := divs[0];
      var h1 := HeapItems(h0, items, budget);
      var h1' := if h1.store[h1.cur] != [] then Push(h1) else h1;
      assert HeapDivs(h0, divs, budget) == h1' by {
        assert divs[1..] == [];
      }
      Mirrors1Run(items, budget);
      ListedAtDivEnd(h1, GroupRun(items, budget));
      assert SectionGroups(divs, budget) == DivGroups(items, budget) by {
        assert divs[..0] == [];
      }
    }
  }

  /**
   * The store of pass 2 stands for the packing `st`, with the objects `refs`
   * still to come holding the groups `rest`, untouched so far.
   */
  predicate Mirrors2(p: Heap2, st: Packing, refs: seq<nat>, rest: seq<seq<string>>) {
    && Heap2Ok(p)
    && |p.out| == |st.chunks|
    && (forall j :: 0 <= j < |p.out| ==> p.store[p.out[j]] == st.chunks[j] && p.out[j] != p.cur)
    && p.store[p.cur] == st.open
    && p.words == st.words
    && Listed(p.store, refs, rest)
    && (forall i :: 0 <= i < |refs| ==> refs[i] != p.cur && refs[i] !in p.out)
  }

  /** One group moves the store and the packing alike. */
  lemma Mirrors2Step(p: Heap2, st: Packing, refs: seq<nat>, rest: seq<seq<string>>, budget: nat)
    requires Mirrors2(p, st, refs, rest) && refs != []
    ensures var r := refs[0];
            var w := MarkupWords(p.store[r]);
            var p1 :=
              if p.words + w <= budget then
                p.(store := p.store[p.cur := p.store[p.cur] + p.store[r]], words := p.words + w)
              else p.(out := p.out + [p.cur], cur := r, words := w);
            Mirrors2(p1, PackStep(st, rest[0], budget), refs[1..], rest[1..])
  {
    var r := refs[0];
    forall i | 1 <= i < |refs| ensures refs[i] != r {
      assert refs[0] < refs[i];
    }
  }

  lemma {:induction false} Mirrors2Run(p: Heap2, done: seq<seq<string>>, refs: seq<nat>, rest: seq<seq<string>>, budget: nat)
    requires Mirrors2(p, PackRun(done, budget), refs, rest)
    ensures Mirrors2(HeapPack(p, refs, budget), PackRun(done + rest, budget), [], [])
    decreases |refs|
  {
    if refs == [] {
      assert done + rest == done;
    } else {
      Mirrors2Step(p, PackRun(done, budget), refs, rest, budget);
      var done' := done + [rest[0]];
      assert done'[..|done'| - 1] == done;
      assert done' + rest[1..] == done + rest;
      var r := refs[0];
      var w := MarkupWords(p.store[r]);
      var p1 :=
        if p.words + w <= budget then
          p.(store := p.store[p.cur := p.store[p.cur] + p.store[r]], words := p.words + w)
        else p.(out := p.out + [p.cur], cur := r, words := w);
      assert HeapPack(p, refs, budget) == HeapPack(p1, refs[1..], budget);
      Mirrors2Run(p1, done', refs[1..], rest[1..], budget);
    }
  }

  /**
   * On a fragment with at most one div the open group is never carried
   * over, so the source as written and the per-div reset agree: the
   * correction changes only fragments with two divs or more.
   */
  lemma AsWrittenAgreesOnOneDiv(divs: seq<seq<Item>>, budget: nat)
    requires |divs| <= 1
    ensures AsWrittenChunks(divs, budget) == CorrectedChunks(divs, budget)
  {
    var h := HeapDivs(Heap1([[]], [], 0, 0), divs, budget);
    var gs := MarkupGroups(SectionGroups(divs, budget));
    PassOneListed(divs, budget);
    var p0 := Heap2(h.store + [[]], [], |h.store|, 0);
    PassTwoStart(h.store, h.chunks, gs, budget);
    Mirrors2Run(p0, [], h.chunks, gs, budget);
    assert [] + gs == gs;
    PassTwoEnd(HeapPack(p0, h.chunks, budget), PackRun(gs, budget));
  }

  /** Pass 2 starts from a fresh empty object, younger than every listed one. */
  lemma PassTwoStart(store: seq<seq<string>>, refs: seq<nat>, gs: seq<seq<string>>, budget: nat)
    requires Listed(store, refs, gs)
    ensures Mirrors2(Heap2(store + [[]], [], |store|, 0), PackRun([], budget), refs, gs)
  {
    assert MarkupWords([]) == 0 by { WordCountOfJoin([]); }
  }

  /** The final flush and `''.join` read the same chunks from the store as from the packing. */
  lemma PassTwoEnd(p: Heap2, st: Packing)
    requires Mirrors2(p, st, [], [])
    ensures var out := if p.store[p.cur] != [] then p.out + [p.cur] else p.out;
            var packed := st.chunks + (if st.open != [] then [st.open] else []);
            seq(|out|, j requires 0 <= j < |out| => Concat(p.store[out[j]]))
            == seq(|packed|, j requires 0 <= j < |packed| => Concat(packed[j]))
  {
    var out := if p.store[p.cur] != [] then p.out + [p.cur] else p.out;
    var packed := st.chunks + (if st.open != [] then [st.open] else []);
    assert |out| == |packed|;
    forall j | 0 <= j < |out| ensures p.store[out[j]] == packed[j] {
    }
  }

  /** A paragraph `<p>s</p>` holding one word. */
  function Para(s: string): Node {
    Elem("p", [], [Text(s)])
  }

  lemma ParaItem(s: string, chapter: Option<string>)
    requires IsWord(s) && chapter.None?
    ensures ItemOf(Para(s), chapter) == Item("<p>" + s + "</p>", 1, false)
  {
    assert Markup([Text(s)]) == s + Markup([]);
    assert Serialize(Para(s)) == "<p>" + s + "</p>" by {
      assert AttrsMarkup([]) == "" && Markup([]) == "";
      assert Markup([Para(s)]) == "<" + "p" + AttrsMarkup([]) + ">" + Markup([Text(s)]) + "</" + "p" + ">" + Markup([]);
    }
    assert TextOf([Text(s)]) == s + TextOf([]);
    assert GetText(Para(s)) == s by {
      assert TextOf([Para(s)]) == TextOf([Text(s)]) + TextOf([]);
    }
    WordsOfWord(s);
    assert Forest([Text(s)]) == [Text(s)];
  }

  /** The words `<p>a</p>` and `<p>b</p>` are single tokens. */
  lemma ParaWords(s: string)
    requires IsWord(s)
    ensures MarkupWords(["<p>" + s + "</p>"]) == 1
  {
    var m := "<p>" + s + "</p>";
    assert NoSpace(m) by {
      forall i | 0 <= i < |m| ensures !IsSpace(m[i]) {
        if 3 <= i < 3 + |s| {
          assert m[i] == s[i - 3];
        }
      }
    }
    WordsOfWord(m);
  }

  /** The page `<center><div><p>s</p></div></center>`. */
  function ParaPage(s: string): Node {
    Wrap([Para(s)])
  }

  lemma ParaPageDivs(s: string)
    ensures TagsNamed(Forest([ParaPage(s)]), "div") == [Elem("div", [], [Para(s)])]
  {
    var p, div, page := Para(s), Elem("div", [], [Para(s)]), ParaPage(s);
    ForestSingle(Text(s));
    ForestSingle(p);
    ForestSingle(div);
    ForestSingle(page);
    assert Forest([page]) == [page, div] + [p, Text(s)];
    TagsNamedAppend([page, div], [p, Text(s)], "div");
    TagsNamedAppend([page], [div], "div") by { assert [page, div] == [page] + [div]; }
    TagsNamedAppend([p], [Text(s)], "div") by { assert [p, Text(s)] == [p] + [Text(s)]; }
    TagsNamedSingle(page, "div");
    TagsNamedSingle(div, "div");
    TagsNamedSingle(p, "div");
    TagsNamedSingle(Text(s), "div");
  }

  /** The items pass 1 sees in a fragment of two paragraph pages. */
  lemma TwoPageItems(s: string, t: string)
    requires IsWord(s) && IsWord(t)
    ensures FragmentItems([ParaPage(s), ParaPage(t)], None)
            == [[Item("<p>" + s + "</p>", 1, false)], [Item("<p>" + t + "</p>", 1, false)]]
  {
    var frag := [ParaPage(s), ParaPage(t)];
    assert frag == [ParaPage(s)] + [ParaPage(t)];
    ForestAppend([ParaPage(s)], [ParaPage(t)]);
    TagsNamedAppend(Forest([ParaPage(s)]), Forest([ParaPage(t)]), "div");
    ParaPageDivs(s);
    ParaPageDivs(t);
    assert Divs(frag) == [Elem("div", [], [Para(s)]), Elem("div", [], [Para(t)])];
    assert TagChildren([Para(s)]) == [Para(s)];
    assert TagChildren([Para(t)]) == [Para(t)];
    ParaItem(s, None);
    ParaItem(t, None);
    assert ItemsOf([Para(s)], None) == [ItemOf(Para(s), None)];
    assert ItemsOf([Para(t)], None) == [ItemOf(Para(t), None)];
  }

  /** Pass 1 as written: both divs append the one list object, which holds both children. */
  lemma AsWrittenPass1(x: string, y: string)
    ensures HeapDivs(Heap1([[]], [], 0, 0), [[Item(x, 1, false)], [Item(y, 1, false)]], 10) == Heap1([[x, y]], [0, 0], 0, 2)
  {
    var a, b := Item(x, 1, false), Item(y, 1, false);
    var h0 := Heap1([[]], [], 0, 0);
    var h1 := HeapItem(h0, a, 10);
    assert h0.store[0] + [x] == [x];
    assert h0.store[0 := [x]] == [[x]];
    assert h1 == Heap1([[x]], [], 0, 1);
    assert HeapItems(h0, [a], 10) == h1 by { assert [a][1..] == []; }
    var h2 := HeapItem(Push(h1), b, 10);
    assert Push(h1) == Heap1([[x]], [0], 0, 1);
    assert [x] + [y] == [x, y];
    assert [[x]][0 := [x] + [y]] == [[x, y]];
    assert h2 == Heap1([[x, y]], [0], 0, 2);
    assert HeapItems(Push(h1), [b], 10) == h2 by { assert [b][1..] == []; }
    assert [[a], [b]][1..] == [[b]] && [[b]][1..] == [];
    assert HeapDivs(h0, [[a], [b]], 10) == HeapDivs(Push(h1), [[b]], 10);
    assert HeapDivs(Push(h1), [[b]], 10) == HeapDivs(Push(h2), [], 10);
  }

  /** Pass 2 as written: the fresh list is extended by the same object twice. */
  lemma AsWrittenPass2(x: string, y: string)
    requires MarkupWords([x, y]) == 2
    ensures HeapPack(Heap2([[x, y], []], [], 1, 0), [0, 0], 10) == Heap2([[x, y], [x, y, x, y]], [], 1, 4)
  {
    var xy := [x, y];
    var p0 := Heap2([xy, []], [], 1, 0);
    var p1 := Heap2([xy, xy], [], 1, 2);
    var p2 := Heap2([xy, [x, y, x, y]], [], 1, 4);
    assert [0, 0][1..] == [0] && [0][1..] == [];
    assert [] + xy == xy && xy + xy == [x, y, x, y];
    assert p0.store[1 := p0.store[1] + p0.store[0]] == [xy, xy];
    assert HeapPack(p0, [0, 0], 10) == HeapPack(p1, [0], 10);
    assert p1.store[1 := p1.store[1] + p1.store[0]] == [xy, [x, y, x, y]];
    assert HeapPack(p1, [0], 10) == HeapPack(p2, [], 10);
  }

  /** `''.join([x, y, x, y])`. */
  lemma ConcatFour(x: string, y: string)
    ensures Concat([x, y, x, y]) == x + y + x + y
  {
    assert Concat([y]) == y by {
      assert Concat([y]) == y + Concat([]);
      assert y + "" == y;
    }
    assert Concat([x, y]) == x + y by { assert [x, y][1..] == [y]; }
    assert Concat([y, x, y]) == y + (x + y) by { assert [y, x, y][1..] == [x, y]; }
    assert Concat([x, y, x, y]) == x + (y + (x + y)) by { assert [x, y, x, y][1..] == [y, x, y]; }
  }

  /** As written, a fragment of two divs of one child each gives one chunk holding both children twice. */
  lemma AsWrittenTwoItems(x: string, y: string)
    requires MarkupWords([x]) == 1 && MarkupWords([y]) == 1
    ensures AsWrittenChunks([[Item(x, 1, false)], [Item(y, 1, false)]], 10) == [x + y + x + y]
  {
    assert MarkupWords([x, y]) == 2 by {
      MarkupWordsAppend([x], [y]);
      assert [x] + [y] == [x, y];
    }
    AsWrittenPass1(x, y);
    AsWrittenPass2(x, y);
    assert [[x, y]] + [[]] == [[x, y], []];
    var p := Heap2([[x, y], [x, y, x, y]], [], 1, 4);
    var out := p.out + [p.cur];
    assert out == [1];
    var c := seq(|out|, j requires 0 <= j < |out| => Concat(p.store[out[j]]));
    assert c == [Concat([x, y, x, y])];
    ConcatFour(x, y);
  }

  /** Reset per div: one group per div, packed into one chunk holding each once. */
  lemma CorrectedTwoItems(x: string, y: string)
    requires MarkupWords([x]) == 1 && MarkupWords([y]) == 1
    ensures CorrectedChunks([[Item(x, 1, false)], [Item(y, 1, false)]], 10) == [x + y]
  {
    var a, b := Item(x, 1, false), Item(y, 1, false);
    assert GroupRun([a], 10) == Grouping([], [a], 1);
    assert GroupRun([b], 10) == Grouping([], [b], 1);
    assert SectionGroups([[a]], 10) == [[a]];
    assert SectionGroups([[a], [b]], 10) == [[a], [b]];
    assert Markups([a]) == [x] && Markups([b]) == [y];
    assert MarkupGroups([[a], [b]]) == [[x], [y]];
    assert PackRun([[x]], 10) == Packing([], [x], 1);
    assert PackRun([[x], [y]], 10) == Packing([], [x, y], 2);
    assert Packed([[x], [y]], 10) == [[x, y]];
    var packed := Packed(MarkupGroups(SectionGroups([[a], [b]], 10)), 10);
    assert packed == [[x, y]];
    var c := seq(|packed|, j requires 0 <= j < |packed| => Concat(packed[j]));
    assert |c| == 1 && c[0] == Concat([x, y]);
    assert c == [Concat([x, y])];
    assert Concat([y]) == y by {
      assert Concat([y]) == y + Concat([]);
      assert y + "" == y;
    }
    assert Concat([x, y]) == x + y by { assert [x, y][1..] == [y]; }
  }

  /**
   * A first fragment of two pages holding one one-word paragraph each,
   * within budget: as written it yields a single chunk that holds both
   * paragraphs twice, where the per-div reset yields them once (for
   * `s, t = "a", "b"`: `<p>a</p><p>b</p><p>a</p><p>b</p>` against
   * `<p>a</p><p>b</p>`).
   */
  lemma AliasingDuplicatesPages(s: string, t: string)
    requires IsWord(s) && IsWord(t)
    ensures var x, y := "<p>" + s + "</p>", "<p>" + t + "</p>";
            && AsWrittenChunks(FragmentItems([ParaPage(s), ParaPage(t)], None), 10) == [x + y + x + y]
            && FragmentChunks([ParaPage(s), ParaPage(t)], None, 10) == [x + y]
  {
    TwoPageItems(s, t);
    ParaWords(s);
    ParaWords(t);
    AsWrittenTwoItems("<p>" + s + "</p>", "<p>" + t + "</p>");
    CorrectedTwoItems("<p>" + s + "</p>", "<p>" + t + "</p>");
  }
}
