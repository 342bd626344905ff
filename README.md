# S-1 filing segmentation and chunking, modelled in Dafny

This project models the segmentation core of `scrape.py`. That file turns the
HTML of an SEC S-1 filing into per-chapter chunks for a language model. The
pipeline is:

1. **Table-of-contents line** (`find_toc_lines`, `identify_unique_toc`). Every
   string that mentions the table of contents contributes its parent tag. The
   chosen line is the first serialised line that occurs exactly once. The
   others are the "back to contents" links repeated on every page.
2. **Section ids** (`extract_section_ids`). The first tag that serialises to
   that line is found, and the walk goes up to its enclosing `div`. The `#`
   targets of the links inside it are collected.
3. **Partition** (`split_html_into_sections`). The `<center>` pages are cut
   into one fragment per listed anchor, plus a leading fragment when the
   first page with a `div` lists no anchor. A page that
   holds several anchors is sliced into synthetic `<center><div>` pages.
4. **Extraction** (`extract_text_and_tables`, and its twin
   `extract_text_with_references`). A preorder walk produces the text with
   `[TABLE_k]` placeholders, plus one row/cell matrix per table. The text is
   then put in whitespace normal form.
5. **Chunking** (`chunk`, `word_count`). There are two passes:
   - Pass 1 groups the tag children of every `div` at boundaries: `<b>`,
     `<table>`, or the fragment's own chapter anchor.
   - Pass 2 packs consecutive groups greedily under a word budget.

   The chunks of fragment `i` are stored under `section_ids[i - 1]`, and those
   of fragment 0 under `'pre-section'`.

## How it is modelled

- **The parsed document** is a tree, `Tree.Node = Text(s) | Elem(name, attrs, children)`,
  and its root is the parser's `[document]` object. The BeautifulSoup queries
  are functions over it:
  - `descendants` is a preorder list;
  - `find`, `find_all`, `get`, `get_text` and `str(tag)` each have their own function.
- **Python string primitives** are written out in `strings.dfy`:
  - `str.split()`, `str.strip()`, `' '.join` and `''.join`;
  - substring tests and `str(n)`.

  Whitespace is Python's `str.isspace` set.
- **Fragments** (section HTML strings in the source) are kept as the node
  lists they are built from. A slice is `Wrap(children)`, the tree of
  `<center><div>children</div></center>`.
- **Imperative code stays imperative**:
  - each source loop is a `method` with its loop and invariants;
  - each method is proved equal to a specification function;
  - the properties are lemmas about those functions.
- **Error paths are results**:
  - `extract_section_ids` returns a `Result`, with `ContainerNotFound` for
    the `ValueError`;
  - `NoEnclosingDiv` covers the walk up past the document root, where the
    source fails on `None.name`;
  - `identify_unique_toc` returns an `Option`.
- **Pass 1 in `chunk`.** As written, it never resets its open group between
  divs (see Findings). `AsWrittenChunks` models the code as written, with
  Python's list objects made explicit. The rest of the model, including
  `Chunk`, uses the corrected pass 1 that resets the group at every div.

The model follows the code where a reader might expect otherwise:

- The table-of-contents match is case-sensitive. It accepts three exact spellings, not any casing.
- When several lines are unique, `identify_unique_toc` returns the first of them instead of failing.
- Section ids keep duplicates, in link order.
- Pass 1 walks the tag children of every `div` of a fragment, nested divs included. It does not walk the fragment's top-level children.
- Pass 2 measures a chunk by the whitespace tokens of its raw markup, not by the words of its text. So the budget bound is on markup words.

## Model

| member | source | states |
|---|---|---|
| Toc.FindTocLines | scrape.py:28-40 | the lines are the parents of the matching strings, one per matching string, in document order |
| Toc.TocParentsMembership | scrape.py:36-39 | a tag is a candidate line exactly when some string directly inside it contains one of the three case-sensitive spellings |
| Toc.TocParentsAppend | scrape.py:37-39 | candidate lines keep document order: the lines of an earlier part of the document come first |
| Toc.IdentifyUniqueToc | scrape.py:42-52 | the result is the re-parsed first line whose serialisation occurs exactly once; if no line is unique, the result is None |
| Toc.CounterOrderFindsFirstUnique | scrape.py:50-52 | the Counter's keys kept in first-appearance order and filtered to count 1 begin with the earliest unique line; the filtered list is empty exactly when no line is unique |
| Toc.NoUniqueLineGivesNone | scrape.py:50-52 | when every serialised line occurs zero or at least two times, the result is None |
| Toc.ExtractSectionIds | scrape.py:54-77 | the loop finds the first tag that serialises to the line, walks up to the nearest div (the tag itself included), and returns that div's '#' targets; otherwise it returns ContainerNotFound or NoEnclosingDiv |
| Toc.EnclosingDiv | scrape.py:66-68 | the walk up stops at the tag itself when it is a div, and otherwise at the nearest div ancestor, with no div between; with no div ancestor there is none |
| Toc.CollectTargets | scrape.py:72-77 | the ids are `href[1:]` of every `<a>` whose href starts with '#', in order, duplicates kept |
| Toc.HashTargetsMembership | scrape.py:73-76 | x is a section id exactly when some `<a>` in the container has href "#x"; other hrefs contribute nothing |
| Toc.HashTargetsAppend | scrape.py:73-76 | section ids keep document order over concatenated node lists |
| Toc.SectionIdsNotFound | scrape.py:62-71 | the container is not found exactly when no tag serialises to the line; a missing line (None) is always not found |
| Partition.FirstAnchorIsFind | scrape.py:108 | the cut test holds exactly when `tag.find('a')` is a tag whose name attribute is the next anchor; bare strings never pass |
| Partition.CutPartitionsChildren | scrape.py:101-118 | the slices of a page, concatenated, are exactly the div's children, each once and in order |
| Partition.CutFallsBeforeNextAnchor | scrape.py:105-117 | each slice ends just before the first child whose first `<a>` names the next anchor, and no child inside the slice passes that test |
| Partition.SlicedPage | scrape.py:96-123 | a page with k >= 2 listed anchors flushes the open fragment, emits k-1 wrapped slices and leaves the last piece open; the slices partition its children at the anchors |
| Partition.SlicePass | scrape.py:102-118 | one pass of the for-loop returns the children before the cut as the slice and the cut child onwards as the next contents, dropping one name |
| Partition.SlicePage | scrape.py:100-123 | the while-loop emits one wrapped slice per extra anchor; its remainder is the last piece, which is empty only when the page has a single anchor |
| Partition.AddPage | scrape.py:91-126 | one page: without a div, nothing changes; without listed anchors, the page joins the open fragment; otherwise the open fragment is flushed, any extra anchors emit slices, and the page (or its last slice) opens the next fragment |
| Partition.SplitHtmlIntoSections | scrape.py:79-129 | the fragments are the run of the page loop over every `<center>`, with the open fragment closed at the end |
| Partition.RunCounts | scrape.py:88-126 | between pages the open fragment is empty exactly until the first page with a div; emitted plus open fragments number one per listed anchor, plus the lead fragment |
| Partition.PartitionCount | scrape.py:79-129 | the result has one fragment per listed anchor, plus one when the first page with a div lists none (the pre-contents fragment) |
| Extract.TableData | scrape.py:144-148 | one row per `tr` below the table; row r holds the stripped text of the `td`/`th` cells below that row |
| Extract.ProcessTable | scrape.py:142-152 | the pointer is `[TABLE_k]` for the current counter k, the counter goes up by one, and the table's matrix is appended |
| Extract.Visit | scrape.py:153-160 | one node appends its stripped string and a space, a spaced placeholder for a table, or a newline for p/div; a table also appends its matrix, and the counter stays equal to the number of tables |
| Extract.Walk | scrape.py:153-160 | the loop over `descendants` builds exactly the raw text and the table list of the whole preorder |
| Extract.ExtractTextAndTables | scrape.py:131-162 | the text is the normalised raw text of the walk; the tables are every table's matrix, in preorder |
| Extract.ExtractedTextIsNormal | scrape.py:161 | the returned text has no newline, no leading or trailing space and no double space, so normalising again changes nothing |
| Extract.ExtractedTextTokens | scrape.py:153-161 | the returned text's tokens are every string's tokens in document order, with `[TABLE_k]` where table k starts; table text still follows its placeholder |
| Extract.PlaceholdersAreNumbered | scrape.py:149-158 | the placeholders are `[TABLE_0]`, `[TABLE_1]`, ... with no gap, and there are as many as collected tables |
| Extract.PlaceholderPointsAtTable | scrape.py:149-158 | the placeholder emitted for a table names the index in `tables` that holds that table's matrix |
| Extract.TablesOfAppend | scrape.py:153-158 | the tables of a node list are the tables of its parts, in order |
| Strings.WordCountOfJoin | scrape.py:164-166 | `word_count(' '.join(xs))` is the sum of the word counts of the parts |
| Strings.NormalizeIsNormal | scrape.py:161 | `' '.join(s.split())` is in whitespace normal form |
| Strings.NormalizeIdempotent | scrape.py:161 | normalising twice is normalising once |
| Strings.NormalizeKeepsWords | scrape.py:161 | normalising keeps exactly the tokens of the input |
| Strings.NormalFormIsFixedPoint | scrape.py:161 | a string is in normal form exactly when normalising leaves it unchanged |
| Strings.WordsOfJoin | scrape.py:161 | splitting a space-joined list of tokens gives the tokens back |
| Strings.WordsOfStrip | scrape.py:155 | stripping a string does not change its tokens |
| Chunking.Key | scrape.py:201-231 | fragment 0 is keyed 'pre-section' and has no chapter test; any later fragment i is keyed by the same `section_ids[i-1]` its chapter test looks for |
| Chunking.Place | scrape.py:202-214 | a boundary child closes a non-empty open group and opens its own; any other child joins if the word total stays within budget, and otherwise closes the group (even an empty one) |
| Chunking.GroupDiv | scrape.py:195-216 | pass 1 over one div's tag children (bare strings skipped) gives that div's groups |
| Chunking.GroupFragment | scrape.py:194-216 | corrected pass 1 (per-div reset): the loop over every div of the fragment, nested divs included, gives each div's groups in turn |
| Chunking.GroupRunShape | scrape.py:195-214 | pass 1's state holds exactly the children so far, in order; its word total is the open group's, and only the first closed group can be empty |
| Chunking.DivGroupsPartition | scrape.py:195-216 | every child of a div lands in exactly one group, in order |
| Chunking.DivGroupsProperties | scrape.py:199-214 | every group of two or more children is within budget; a boundary child is always first in its group; a non-boundary child opens a group only when it did not fit |
| Chunking.SectionGroupsPartition | scrape.py:194-216 | corrected pass 1 (per-div reset): over a fragment, the groups hold every tag child of every div once, in order |
| Chunking.SectionGroupsGood | scrape.py:194-216 | corrected pass 1 (per-div reset): over a fragment, every group of two or more children is within budget and has no boundary after its first child |
| Chunking.MarkupWordsAppend | scrape.py:221 | the markup word count of concatenated lists adds up |
| Chunking.PackGroups | scrape.py:217-230 | the pass-2 loop computes the greedy packing of the groups |
| Chunking.PackedPreservesOrder | scrape.py:217-230 | the chunks, flattened, are the groups' markup in order, without loss or repetition |
| Chunking.PackedWithinBudget | scrape.py:220-230 | every chunk's markup words are within budget, unless the chunk is a single group that alone exceeds it |
| Chunking.ChunkFragment | scrape.py:189-232 | corrected pass 1 (per-div reset): one fragment's chunk strings are both passes followed by `''.join` of each chunk |
| Chunking.CorrectedChunksKeepMarkup | scrape.py:194-232 | with the per-div reset, the chunk strings joined are the markup of every div's tag children, each once and in order |
| Chunking.ChunkSections | scrape.py:189-232 | corrected pass 1 (per-div reset): the dictionary stores fragment i's chunks under key i, later equal keys overwriting earlier ones, and its keys come in the dict's insertion order |
| Chunking.ChunkOne | scrape.py:189-232 | corrected pass 1 (per-div reset): one pass of the fragment loop stores the next fragment's chunks and keeps the key order |
| Chunking.Store | scrape.py:232 | `chunk_dict[key] = value`: the value replaces any earlier one; a new key goes last and an existing key keeps its place |
| Chunking.KeyOrderKeys | scrape.py:231-232 | the keys in insertion order are distinct and are exactly the keys of the fragments so far |
| Chunking.KeyOrderPrefix | scrape.py:231-232 | keys stored earlier come first: the order after m fragments is a prefix of the order after any later count |
| Chunking.KeyOrderOfDistinctIds | scrape.py:231-232 | with distinct ids, none of them 'pre-section', the keys come in fragment order: 'pre-section', then `section_ids[0]`, ... |
| Chunking.Chunk | scrape.py:168-233 | corrected pass 1 (per-div reset): partition the document, then chunk and key every fragment, with the keys in insertion order |
| Chunking.DictOfKeys | scrape.py:231-232 | the dictionary's keys are exactly 'pre-section' (if any fragment) and `section_ids[i-1]` for each later fragment i |
| Chunking.DictOfLatest | scrape.py:231-232 | a key holds the chunks of the last fragment with that key |
| Chunking.DistinctIdsKeepEveryFragment | scrape.py:179-181 | with distinct ids, none of them 'pre-section', every fragment's chunks stay in the dictionary under their own key |
| Chunking.ChunkKeysInRange | scrape.py:179-181 | when the filing starts with an unanchored page and the listed anchors are exactly the ids, there is one fragment more than ids, so every key lookup is in range |
| Chunking.AsWrittenAgreesOnOneDiv | scrape.py:192-232 | on a fragment with at most one div the source as written (aliasing included) and the per-div reset give the same chunks, so the correction changes only fragments with two divs or more |
| Chunking.AliasingDuplicatesPages | scrape.py:194-232 | as written, a two-page fragment within budget yields one chunk holding both pages' paragraphs twice; the per-div reset holds each once |

## Left out

- Network fetches and console output (`s1_html`, and the requests in `split_by_toc` and `s1_xml_download`) are I/O.
- Directory creation and JSON file writing are file I/O. So are the assembly of the output file in `split_by_toc` and `s1_xml_download`.
- The module-level script run and the prompt string are top-level side effects and data.
- HTML parsing is left out. Documents are given as trees, and re-parsing a fragment's markup is taken to give back the nodes it was built from.
- The `' '` and `''` separators the source puts between the serialised pieces of a fragment are left out. On re-parse they only add whitespace strings: these strings contribute no tokens, and pass 1 skips them.
- `Tree.Serialize` is a simplified `str(tag)` without entity escaping or void elements. Comments, doctypes and other special strings are not modelled.
- Toc.IdentifyUniqueToc: re-parsing a serialised line is taken to give the tag back (`Toc.Reparse`); for the document object it gives its first tag.
- The `section_name` lookup in `split_by_toc` is a library query used only for labelling.
- The float budget `token_size // 1.6` is taken as a natural-number parameter `budget`.
- models.py is not part of this model: it holds model loading and inference, with no segmentation logic.
- Partition.SplitHtmlIntoSections: requires `Splittable`. The source loops forever when a slicing pass finds no cut: the child list becomes empty while the names never shrink.
- Partition.SplitHtmlIntoSections: requires `FlatPages` (no `<center>` inside a page). The source rewrites `div_tag.contents` in place, and a later, nested page could observe that rewrite. The model keeps the contents in a local variable.
- Chunking.Chunk: requires at most one fragment more than there are ids, instead of modelling the `IndexError` raised by `section_ids[i - 1]`.
- Chunking.Chunk: uses pass 1 with the group reset at every div. The as-written aliasing is modelled separately by `Chunking.AsWrittenChunks` (see Findings).
- Chunking.ChunkOne: stores the chunks of pass 1 with the group reset at every div, not the source's carried-over group (see Findings).
- Chunking.ChunkSections: uses pass 1 with the group reset at every div, not the source's group carried over between divs (see Findings).
- Chunking.ChunkFragment: uses pass 1 with the group reset at every div. On fragments with two divs or more the source as written differs (see Findings); on one div the two agree (`Chunking.AsWrittenAgreesOnOneDiv`).
- Chunking.GroupFragment: resets the open group at every div. The source keeps one group across divs and lists it again at every div end.
- Chunking.SectionGroupsPartition: holds for the per-div reset only. As written, one group object can be listed at several div ends, so a child can appear more than once.
- Chunking.SectionGroupsGood: holds for the per-div reset only. As written, a group carried over between divs is extended in place by later divs.

## Findings

| source | as written | input that shows it | evidently intended | confidence | as-written member | corrected member |
|---|---|---|---|---|---|---|
| scrape.py:192-230 | `current_chunk` is set once per fragment, so the open group is never reset between divs. It is appended to `section_chunks` again at every div end (lines 215-216), so one list object can be listed several times. Pass 2 then aliases it (`current_chunk = chunk`) and grows it in place (`extend`), so a chunk can repeat earlier content. | A fragment of two pages, `<center><div><p>a</p></div></center>` and `<center><div><p>b</p></div></center>`, with budget 10, yields the single chunk `<p>a</p><p>b</p><p>a</p><p>b</p>`. | Each div's children are grouped once: the chunk is `<p>a</p><p>b</p>`, and the chunks of a fragment, joined, hold every child's markup once, in order. | not executed | Chunking.AliasingDuplicatesPages | Chunking.CorrectedChunksKeepMarkup |
