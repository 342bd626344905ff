/**
 * `extract_text_and_tables` (scrape.py, lines 131-162) and its twin
 * `extract_text_with_references` (lines 277-310): a preorder walk over a
 * fragment that emits every string stripped, a `[TABLE_k]` placeholder for
 * the k-th table and a line break for `<p>` and `<div>`, collects each table
 * as rows of cell texts, and finally puts the text in whitespace normal form.
 */
module Extract {
  import opened Strings
  import opened Tree

  /** A table as the scraper keeps it: one list of cell texts per row. */
  type Table = seq<seq<string>>

  /** The `td` and `th` tags of `ds`, in order (`row.find_all(['td', 'th'])`). */
  function CellTags(ds: seq<Node>): (r: seq<Node>)
    ensures forall i :: 0 <= i < |r| ==> IsTag(r[i], "td") || IsTag(r[i], "th")
  {
    if ds == [] then []
    else (if IsTag(ds[0], "td") || IsTag(ds[0], "th") then [ds[0]] else []) + CellTags(ds[1..])
  }

  /** `[cell.get_text(strip=True) for cell in row.find_all(['td', 'th'])]`. */
  function Row(row: Node): (r: seq<string>)
    ensures |r| == |CellTags(Descendants(row))|
  {
    var cells := CellTags(Descendants(row));
    seq(|cells|, i requires 0 <= i < |cells| => StrippedTextOf(cells[i].children))
  }

  /** The `tr` tags anywhere below a table (nested tables' rows included). */
  function RowTags(table: Node): seq<Node> {
    TagsNamed(Descendants(table), "tr")
  }

  /**
   * The body of `process_table`: one row per `tr` below the table, each row
   * the stripped texts of the `td`/`th` cells below it.
   */
  method TableData(table: Node) returns (data: Table)
    ensures |data| == |RowTags(table)|
    ensures forall r :: 0 <= r < |data| ==> data[r] == Row(RowTags(table)[r])
  {
    var rows := RowTags(table);
    data := [];
    for r := 0 to |rows|
      invariant |data| == r
      invariant forall q :: 0 <= q < r ==> data[q] == Row(rows[q])
    {
      data := data + [Row(rows[r])];
    }
  }

  /** The table of `data` that `process_table` appends for `table`. */
  function Matrix(table: Node): (m: Table)
    ensures |m| == |RowTags(table)|
    ensures forall r :: 0 <= r < |m| ==> m[r] == Row(RowTags(table)[r])
  {
    var rows := RowTags(table);
    seq(|rows|, r requires 0 <= r < |rows| => Row(rows[r]))
  }

  /** `f"[TABLE_{k}]"`. */
  function Placeholder(k: nat): (p: string)
    ensures IsWord(p)
  {
    "[TABLE_" + NatToString(k) + "]"
  }

  /**
   * `process_table`: the placeholder for the table numbered `counter`, the
   * counter bumped, and the table's data appended.
   */
  method ProcessTable(table: Node, counter: nat, tables: seq<Table>)
    returns (pointer: string, counter': nat, tables': seq<Table>)
    ensures pointer == Placeholder(counter) && counter' == counter + 1
    ensures tables' == tables + [Matrix(table)]
  {
    var data := TableData(table);
    pointer := "[TABLE_" + NatToString(counter) + "]";
    counter' := counter + 1;
    tables' := tables + [data];
    assert data == Matrix(table);
  }

  /** What the walk appends for one node, the `k`-th table being numbered `k`. */
  function Piece(n: Node, k: nat): string {
    match n
    case Text(s) => Strip(s) + " "
    case Elem(name, _, _) =>
      if name == "table" then " " + Placeholder(k) + " "
      else if name == "p" || name == "div" then "\n"
      else ""
  }

  /** The number of tables among `ds`. */
  function TableCount(ds: seq<Node>): nat {
    |TagsNamed(ds, "table")|
  }

  /** The text accumulated over the nodes `ds`, before normalisation. */
  function RawText(ds: seq<Node>): string {
    if ds == [] then ""
    else
      var init := ds[..|ds| - 1];
      RawText(init) + Piece(ds[|ds| - 1], TableCount(init))
  }

  /** The tables collected over the nodes `ds`, one per table, in order. */
  function TablesOf(ds: seq<Node>): (ts: seq<Table>)
    ensures |ts| == TableCount(ds)
  {
    if ds == [] then []
    else
      var init, d := ds[..|ds| - 1], ds[|ds| - 1];
      TagsNamedAppend(init, [d], "table");
      assert init + [d] == ds;
      TablesOf(init) + (if IsTag(d, "table") then [Matrix(d)] else [])
  }

  lemma RawTextSnoc(ds: seq<Node>, d: Node)
    ensures RawText(ds + [d]) == RawText(ds) + Piece(d, TableCount(ds))
  {
    assert (ds + [d])[..|ds|] == ds;
  }

  lemma TablesOfSnoc(ds: seq<Node>, d: Node)
    ensures TableCount(ds + [d]) == TableCount(ds) + (if IsTag(d, "table") then 1 else 0)
    ensures TablesOf(ds + [d]) == TablesOf(ds) + (if IsTag(d, "table") then [Matrix(d)] else [])
  {
    TagsNamedAppend(ds, [d], "table");
    assert (ds + [d])[..|ds|] == ds;
  }

  lemma {:induction false} TablesOfAppend(a: seq<Node>, b: seq<Node>)
    ensures TablesOf(a + b) == TablesOf(a) + TablesOf(b)
    decreases |b|
  {
    if b == [] {
      assert a + b == a;
    } else {
      DropLast(a, b);
      TablesOfAppend(a, b[..|b| - 1]);
    }
  }

  /**
   * One step of the walk: what the node `element` appends to the text and,
   * for a table, to the tables.
   */
  method Visit(element: Node, raw: string, counter: nat, tables: seq<Table>)
    returns (raw': string, counter': nat, tables': seq<Table>)
    requires counter == |tables|
    ensures raw' == raw + Piece(element, counter)
    ensures tables' == tables + (if IsTag(element, "table") then [Matrix(element)] else [])
    ensures counter' == |tables'|
  {
    var piece := "";
    counter', tables' := counter, tables;
    match element {
      case Text(s) =>
        piece := Strip(s) + " ";
      case Elem(name, _, _) =>
        if name == "table" {
          var pointer;
          pointer, counter', tables' := ProcessTable(element, counter, tables);
          piece := " " + pointer + " ";
        } else if name == "p" || name == "div" {
          piece := "\n";
        }
    }
    raw' := raw + piece;
  }

  /** The loop over `soup.descendants`, before the final whitespace normalisation. */
  method Walk(ds: seq<Node>) returns (raw: string, tables: seq<Table>)
    ensures raw == RawText(ds) && tables == TablesOf(ds)
  {
    raw := "";
    tables := [];
    var counter: nat := 0;
    for i := 0 to |ds|
      invariant raw == RawText(ds[..i])
      invariant tables == TablesOf(ds[..i]) && counter == |tables|
    {
      TakeSnoc(ds, i);
      RawTextSnoc(ds[..i], ds[i]);
      TablesOfSnoc(ds[..i], ds[i]);
      raw, counter, tables := Visit(ds[i], raw, counter, tables);
    }
    assert ds[..|ds|] == ds;
  }

  /**
   * `extract_text_and_tables`: strings stripped and followed by a space, a
   * table's placeholder between spaces, a newline for `<p>` and `<div>`, over
   * every descendant in document order; then `' '.join(text.split())`.
   */
  method ExtractTextAndTables(root: Node) returns (text: string, tables: seq<Table>)
    ensures text == Normalize(RawText(Descendants(root)))
    ensures tables == TablesOf(Descendants(root))
  {
    var raw;
    raw, tables := Walk(Descendants(root));
    text := Normalize(raw);
  }

  /** The text `extract_text_and_tables` returns for a fragment. */
  function ExtractedText(root: Node): string {
    Normalize(RawText(Descendants(root)))
  }

  /** The returned text is in whitespace normal form, so normalising again changes nothing. */
  lemma ExtractedTextIsNormal(root: Node)
    ensures NormalForm(ExtractedText(root))
    ensures Normalize(ExtractedText(root)) == ExtractedText(root)
  {
    NormalizeIsNormal(RawText(Descendants(root)));
    NormalizeIdempotent(RawText(Descendants(root)));
  }

  /** The tokens the walk contributes for one node. */
  function PieceWords(n: Node, k: nat): seq<string> {
    match n
    case Text(s) => Words(s)
    case Elem(name, _, _) => if name == "table" then [Placeholder(k)] else []
  }

  /**
   * The tokens of the text: each string's own tokens in document order, with
   * the placeholder of the k-th table where the table starts (its strings
   * still follow, since tables are not removed from the walk).
   */
  function Tokens(ds: seq<Node>): seq<string> {
    if ds == [] then []
    else
      var init := ds[..|ds| - 1];
      Tokens(init) + PieceWords(ds[|ds| - 1], TableCount(init))
  }

  /** A string that is empty or ends in whitespace splits apart from what follows. */
  lemma WordsAfterSpace(a: string, b: string)
    requires a == [] || IsSpace(a[|a| - 1])
    ensures Words(a + b) == Words(a) + Words(b)
  {
    if a != [] {
      var a', c := a[..|a| - 1], a[|a| - 1];
      assert a == a' + [c];
      assert a + b == a' + [c] + b;
      WordsAt(a', c, b);
      WordsOfPadded(c, a');
    } else {
      assert a + b == b;
    }
  }

  lemma PieceTokens(n: Node, k: nat)
    ensures Words(Piece(n, k)) == PieceWords(n, k)
    ensures Piece(n, k) == [] || IsSpace(Piece(n, k)[|Piece(n, k)| - 1])
  {
    match n
    case Text(s) =>
      WordsOfPadded(' ', Strip(s));
      WordsOfStrip(s);
    case Elem(name, _, _) =>
      if name == "table" {
        var p := Placeholder(k);
        assert " " + p + " " == [' '] + (p + [' ']);
        WordsOfPadded(' ', p + [' ']);
        WordsOfPadded(' ', p);
        WordsOfWord(p);
      } else if name == "p" || name == "div" {
        WordsOfPadded('\n', []);
        assert [] + ['\n'] == "\n";
      }
  }

  lemma {:induction false} RawTextTokens(ds: seq<Node>)
    ensures Words(RawText(ds)) == Tokens(ds)
    ensures RawText(ds) == [] || IsSpace(RawText(ds)[|RawText(ds)| - 1])
  {
    if ds != [] {
      var init := ds[..|ds| - 1];
      var piece := Piece(ds[|ds| - 1], TableCount(init));
      RawTextTokens(init);
      PieceTokens(ds[|ds| - 1], TableCount(init));
      assert RawText(ds) == RawText(init) + piece;
      WordsAfterSpace(RawText(init), piece);
      if piece == [] {
        assert RawText(ds) == RawText(init);
      }
    }
  }

  /** The extracted text's tokens are `Tokens` of the fragment's descendants. */
  lemma ExtractedTextTokens(root: Node)
    ensures Words(ExtractedText(root)) == Tokens(Descendants(root))
  {
    NormalizeKeepsWords(RawText(Descendants(root)));
    RawTextTokens(Descendants(root));
  }

  /** The placeholders in the order the walk emits them. */
  function Placeholders(ds: seq<Node>): seq<string> {
    if ds == [] then []
    else
      var init := ds[..|ds| - 1];
      Placeholders(init) + (if IsTag(ds[|ds| - 1], "table") then [Placeholder(TableCount(init))] else [])
  }

  /**
   * The placeholders are `[TABLE_0]`, `[TABLE_1]`, ... with no gap, one per
   * collected table.
   */
  lemma {:induction false} PlaceholdersAreNumbered(ds: seq<Node>)
    ensures |Placeholders(ds)| == |TablesOf(ds)|
    ensures forall k :: 0 <= k < |Placeholders(ds)| ==> Placeholders(ds)[k] == Placeholder(k)
  {
    if ds != [] {
      var init := ds[..|ds| - 1];
      PlaceholdersAreNumbered(init);
      assert ds == init + [ds[|ds| - 1]];
      TablesOfSnoc(init, ds[|ds| - 1]);
    }
  }

  /** The placeholder emitted for the table at position `i` names the entry that holds that table's data. */
  lemma PlaceholderPointsAtTable(ds: seq<Node>, i: nat)
    requires i < |ds| && IsTag(ds[i], "table")
    ensures var k := TableCount(ds[..i]);
            && Piece(ds[i], k) == " " + Placeholder(k) + " "
            && k < |TablesOf(ds)| && TablesOf(ds)[k] == Matrix(ds[i])
  {
    var pre, post := ds[..i], ds[i + 1..];
    assert TablesOf(ds) == TablesOf(pre) + (TablesOf([ds[i]]) + TablesOf(post)) by {
      assert ds == pre + ([ds[i]] + post);
      TablesOfAppend(pre, [ds[i]] + post);
      TablesOfAppend([ds[i]], post);
    }
    assert TablesOf([ds[i]]) == [Matrix(ds[i])] by {
      TablesOfSnoc([], ds[i]);
      assert [] + [ds[i]] == [ds[i]];
    }
  }
}
