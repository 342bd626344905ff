/**
 * The parsed markup as an abstract tree, and the handful of BeautifulSoup
 * queries the scraper uses on it: `.descendants`, `find`, `get`, `get_text`
 * and `str(tag)`.  Parsing itself is not modelled: a document is given as a
 * tree whose root is the parser's `[document]` object.
 */
module Tree {
  import opened Wrappers
  import opened Strings

  /** A navigable string, or a tag with its name, attributes (in order) and children. */
  datatype Node = Text(s: string) | Elem(name: string, attrs: seq<(string, string)>, children: seq<Node>)

  /** The name BeautifulSoup gives its root object. */
  const DocName: string := "[document]"

  predicate IsTag(n: Node, name: string) {
    n.Elem? && n.name == name
  }

  function AttrIn(attrs: seq<(string, string)>, key: string): (r: Option<string>)
    ensures r.Some? ==> (key, r.value) in attrs
    ensures r.None? ==> forall i :: 0 <= i < |attrs| ==> attrs[i].0 != key
  {
    if attrs == [] then None
    else if attrs[0].0 == key then Some(attrs[0].1)
    else AttrIn(attrs[1..], key)
  }

  /** `tag.get(key)`: the value of attribute `key`; strings have no attributes. */
  function Attr(n: Node, key: string): Option<string> {
    if n.Elem? then AttrIn(n.attrs, key) else None
  }

  /** The nodes below the forest `cs` in document (pre-)order. */
  function Forest(cs: seq<Node>): seq<Node>
    decreases cs
  {
    if cs == [] then []
    else [cs[0]] + (if cs[0].Elem? then Forest(cs[0].children) else []) + Forest(cs[1..])
  }

  /** `tag.descendants`: every node strictly below `n`, in document order. */
  function Descendants(n: Node): seq<Node> {
    if n.Elem? then Forest(n.children) else []
  }

  lemma {:induction false} ForestAppend(a: seq<Node>, b: seq<Node>)
    ensures Forest(a + b) == Forest(a) + Forest(b)
  {
    if a == [] {
      assert a + b == b;
    } else {
      assert (a + b)[0] == a[0];
      assert (a + b)[1..] == a[1..] + b;
      ForestAppend(a[1..], b);
    }
  }

  lemma ForestSingle(n: Node)
    ensures Forest([n]) == [n] + (if n.Elem? then Forest(n.children) else [])
  {
    assert [n][1..] == [];
  }

  /** Position of the first tag called `name` in `ds`, or `|ds|` when there is none. */
  function FirstTagIndex(ds: seq<Node>, name: string): (i: nat)
    ensures i <= |ds|
    ensures i < |ds| ==> IsTag(ds[i], name)
    ensures forall j :: 0 <= j < i ==> !IsTag(ds[j], name)
  {
    if ds == [] then 0
    else if IsTag(ds[0], name) then 0
    else 1 + FirstTagIndex(ds[1..], name)
  }

  /** `tag.find(name)`: the first descendant tag called `name` (never `n` itself). */
  function Find(n: Node, name: string): Option<Node> {
    var ds := Descendants(n);
    var i := FirstTagIndex(ds, name);
    if i < |ds| then Some(ds[i]) else None
  }

  /** `tag.get_text()`: the concatenation of every string below the forest `cs`. */
  function TextOf(cs: seq<Node>): string
    decreases cs
  {
    if cs == [] then ""
    else (match cs[0] case Text(s) => s case Elem(_, _, ch) => TextOf(ch)) + TextOf(cs[1..])
  }

  function GetText(n: Node): string {
    TextOf([n])
  }

  /**
   * `tag.get_text(strip=True)`: every string below `cs`, stripped, joined with
   * no separator (strings that strip to nothing contribute nothing).
   */
  function StrippedTextOf(cs: seq<Node>): string
    decreases cs
  {
    if cs == [] then ""
    else (match cs[0] case Text(s) => Strip(s) case Elem(_, _, ch) => StrippedTextOf(ch)) + StrippedTextOf(cs[1..])
  }

  function AttrsMarkup(attrs: seq<(string, string)>): string {
    if attrs == [] then "" else " " + attrs[0].0 + "=\"" + attrs[0].1 + "\"" + AttrsMarkup(attrs[1..])
  }

  /** `''.join(str(n) for n in cs)`: a simplified `str(tag)` (no entity escaping). */
  function Markup(cs: seq<Node>): string
    decreases cs
  {
    if cs == [] then ""
    else
      (match cs[0]
       case Text(s) => s
       case Elem(name, attrs, ch) => "<" + name + AttrsMarkup(attrs) + ">" + Markup(ch) + "</" + name + ">")
      + Markup(cs[1..])
  }

  /** `str(n)`: a tag's markup always starts with '<'. */
  function Serialize(n: Node): (r: string)
    ensures n.Elem? ==> |r| > 0 && r[0] == '<'
  {
    Markup([n])
  }

  /** Pairs (string, the tag it sits in) for every string below `cs`, in document order. */
  function TextParents(parent: Node, cs: seq<Node>): seq<(string, Node)>
    decreases cs
  {
    if cs == [] then []
    else
      (match cs[0] case Text(s) => [(s, parent)] case Elem(_, _, ch) => TextParents(cs[0], ch))
      + TextParents(parent, cs[1..])
  }

  /**
   * `find_all(True)` with each tag's ancestors: pairs (tag, chain) for every tag
   * below `cs` in document order, where `chain` lists the tag's ancestors from
   * the root down to its parent.
   */
  function TagPaths(chain: seq<Node>, cs: seq<Node>): seq<(Node, seq<Node>)>
    decreases cs
  {
    if cs == [] then []
    else
      (if cs[0].Elem? then [(cs[0], chain)] + TagPaths(chain + [cs[0]], cs[0].children) else [])
      + TagPaths(chain, cs[1..])
  }

  lemma {:induction false} TagPathsAreTags(chain: seq<Node>, cs: seq<Node>)
    ensures forall i :: 0 <= i < |TagPaths(chain, cs)| ==> TagPaths(chain, cs)[i].0.Elem?
    decreases cs
  {
    if cs != [] {
      if cs[0].Elem? {
        TagPathsAreTags(chain + [cs[0]], cs[0].children);
      }
      TagPathsAreTags(chain, cs[1..]);
    }
  }

  /** The tags of `ds` called `name`, in order (`find_all(name)` over a node list). */
  function TagsNamed(ds: seq<Node>, name: string): (r: seq<Node>)
    ensures forall i :: 0 <= i < |r| ==> IsTag(r[i], name)
  {
    if ds == [] then []
    else (if IsTag(ds[0], name) then [ds[0]] else []) + TagsNamed(ds[1..], name)
  }

  lemma TagsNamedSingle(n: Node, name: string)
    ensures TagsNamed([n], name) == if IsTag(n, name) then [n] else []
  {
    assert [n][1..] == [];
  }

  lemma {:induction false} TagsNamedAppend(a: seq<Node>, b: seq<Node>, name: string)
    ensures TagsNamed(a + b, name) == TagsNamed(a, name) + TagsNamed(b, name)
  {
    if a == [] {
      assert a + b == b;
    } else {
      assert (a + b)[1..] == a[1..] + b;
      TagsNamedAppend(a[1..], b, name);
    }
  }

  /** A prefix one element longer is the shorter prefix and that element. */
  lemma TakeSnoc<T>(s: seq<T>, i: nat)
    requires i < |s|
    ensures s[..i + 1] == s[..i] + [s[i]]
  {
  }

  /** Dropping the last element of `a + b`, for a non-empty `b`, drops it from `b`. */
  lemma DropLast<T>(a: seq<T>, b: seq<T>)
    requires b != []
    ensures (a + b)[..|a + b| - 1] == a + b[..|b| - 1]
    ensures (a + b)[|a + b| - 1] == b[|b| - 1]
  {
  }

  /** `''.join(...)` of a list of lists, for node lists. */
  function Flatten<T>(xss: seq<seq<T>>): seq<T> {
    if xss == [] then [] else xss[0] + Flatten(xss[1..])
  }

  lemma {:induction false} FlattenAppend<T>(a: seq<seq<T>>, b: seq<seq<T>>)
    ensures Flatten(a + b) == Flatten(a) + Flatten(b)
  {
    if a == [] {
      assert a + b == b;
    } else {
      assert (a + b)[1..] == a[1..] + b;
      FlattenAppend(a[1..], b);
    }
  }

  lemma FlattenSnoc<T>(xss: seq<seq<T>>, xs: seq<T>)
    ensures Flatten(xss + [xs]) == Flatten(xss) + xs
  {
    FlattenAppend(xss, [xs]);
    assert Flatten([xs]) == xs + Flatten([]);
  }

  /** Groups `a` of the lists `init`, followed by groups `b` of `last`, are groups of `init + [last]`. */
  lemma FlattenStep<T>(a: seq<seq<T>>, b: seq<seq<T>>, init: seq<seq<T>>, last: seq<T>)
    requires Flatten(a) == Flatten(init) && Flatten(b) == last
    ensures Flatten(a + b) == Flatten(init + [last])
  {
    FlattenAppend(a, b);
    FlattenSnoc(init, last);
  }
}
