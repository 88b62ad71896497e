/** Output assembly of the HTML-to-Markdown converter
    (`src/pipeline-advanced/html_to_markdown.py`).

    The parsed HTML tree is abstract: every node arrives with the text the
    converter extracts from it (the inline rendering of its children, or
    its plain text), and the two ways the list renderer re-reads an inline
    buffer as HTML are parameters.  What is modelled is the string work
    done on those texts: list, table and block formatting, the joining of
    the blocks, the blank-line compaction and the final strip. */
module HtmlAssembly {
  import opened Wrappers
  import Text
  import Markdown

  /** `" " * n` */
  function Spaces(n: nat): (s: string)
    ensures |s| == n && forall i :: 0 <= i < n ==> s[i] == ' '
  {
    seq(n, _ => ' ')
  }

  // ---------------------------------------------------------------- lists

  /** A `<ul>` or `<ol>` and its direct `<li>` children. */
  datatype ListNode = ListNode(ordered: bool, items: seq<Item>)

  /** The children of one `<li>`. */
  datatype Item = Item(children: seq<ItemChild>)

  /** A child of an `<li>`: a text node or a non-list tag, given as the
      inline text it contributes to the buffer, or a nested list. */
  datatype ItemChild = Inline(text: string) | Nested(list: ListNode)

  /** How the list renderer re-reads its inline buffer as HTML:
      `inlineText` for the flush before a nested list (`_get_text_inline`
      of the re-parsed buffer), `plainText` for the final flush
      (`get_text()` of the re-parsed buffer). */
  datatype Reparse = Reparse(inlineText: string -> string, plainText: string -> string)

  /** The marker of the `idx`-th item (1-based). */
  function Prefix(ordered: bool, idx: nat): string {
    if ordered then Text.NatToString(idx) + ". " else "- "
  }

  /** One flushed line: indentation, marker, stripped text. */
  function FlushLine(indent: nat, prefix: string, text: string): string {
    Spaces(indent) + prefix + Text.Strip(text)
  }

  /** The nested list's lines, each indented once more by `n`. */
  function IndentEach(lines: seq<string>, n: nat): (r: seq<string>)
    ensures |r| == |lines| && forall k :: 0 <= k < |lines| ==> r[k] == Spaces(n) + lines[k]
  {
    seq(|lines|, k requires 0 <= k < |lines| => Spaces(n) + lines[k])
  }

  /** The state of the loop over an item's children: the lines emitted so
      far, the pending inline buffer and the current marker. */
  datatype ItemState = ItemState(sublines: seq<string>, buffer: string, prefix: string)

  /** The state after the first `j` children of `item`. */
  function FoldItem(item: Item, j: nat, indent: nat, prefix: string, p: Reparse): ItemState
    requires j <= |item.children|
    decreases item, j
  {
    if j == 0 then ItemState([], "", prefix)
    else
      ChildStep(FoldItem(item, j - 1, indent, prefix, p), item.children[j - 1], indent, p)
  }

  /** One child of an item: text goes to the buffer, a nested list is
      rendered after the buffer is flushed. */
  function ChildStep(st: ItemState, child: ItemChild, indent: nat, p: Reparse): ItemState
    decreases child
  {
    match child
    case Inline(s) => st.(buffer := st.buffer + s)
    case Nested(l) => NestedStep(st, indent, p.inlineText(st.buffer), ListLines(l, indent + 2, p))
  }

  /** A nested list: flush the buffer if it holds text (later lines of the
      item are then indented by two spaces instead of the marker), then
      append the nested list's lines, indented again. */
  function NestedStep(st: ItemState, indent: nat, text: string, nestedLines: seq<string>): ItemState {
    var flushed :=
      if Text.IsBlank(text) then st
      else ItemState(st.sublines + [FlushLine(indent, st.prefix, text)], st.buffer, "  ");
    var nested := Text.Join("\n", nestedLines);
    ItemState(flushed.sublines + IndentEach(Text.SplitLines(nested), indent + 2), "", flushed.prefix)
  }

  /** The lines of one item: the folded lines, the final flush, and the
      bare marker when nothing else was emitted. */
  function ItemLines(item: Item, indent: nat, prefix: string, p: Reparse): (r: seq<string>)
    ensures |r| >= 1
    decreases item, |item.children| + 1
  {
    var st := FoldItem(item, |item.children|, indent, prefix, p);
    var text := p.plainText(st.buffer);
    var sub := if Text.IsBlank(text) then st.sublines else st.sublines + [FlushLine(indent, st.prefix, text)];
    if sub == [] then [Spaces(indent) + st.prefix] else sub
  }

  /** The lines of the first `k` items of `l`. */
  function ListLinesFrom(l: ListNode, k: nat, indent: nat, p: Reparse): (r: seq<string>)
    requires k <= |l.items|
    ensures |r| >= k
    decreases l, k
  {
    if k == 0 then []
    else ListLinesFrom(l, k - 1, indent, p) + ItemLines(l.items[k - 1], indent, Prefix(l.ordered, k), p)
  }

  /** The lines of `_render_list(items, ordered, indent)`. */
  function ListLines(l: ListNode, indent: nat, p: Reparse): (r: seq<string>)
    ensures |r| >= |l.items|
    decreases l, |l.items| + 1
  {
    ListLinesFrom(l, |l.items|, indent, p)
  }

  /** An item without nested lists. */
  predicate IsFlat(item: Item) {
    AllInline(item.children)
  }

  predicate AllInline(cs: seq<ItemChild>) {
    forall k :: 0 <= k < |cs| ==> cs[k].Inline?
  }

  /** The texts of inline children, concatenated (`''.join(buf_inline)`). */
  function InlineTexts(cs: seq<ItemChild>): string
    requires AllInline(cs)
  {
    if cs == [] then "" else InlineTexts(cs[..|cs| - 1]) + cs[|cs| - 1].text
  }

  /** Without nested lists the item loop only fills the buffer. */
  lemma {:induction false} FoldFlat(item: Item, j: nat, indent: nat, prefix: string, p: Reparse)
    requires IsFlat(item) && j <= |item.children|
    ensures FoldItem(item, j, indent, prefix, p) == ItemState([], InlineTexts(item.children[..j]), prefix)
  {
    if j > 0 {
      FoldFlat(item, j - 1, indent, prefix, p);
      assert item.children[..j][..j - 1] == item.children[..j - 1];
    }
  }

  /** An item without nested lists renders as exactly one line: the
      marker and its stripped text, which is the bare marker when the text
      is blank. */
  lemma FlatItemLines(item: Item, indent: nat, prefix: string, p: Reparse)
    requires IsFlat(item)
    ensures ItemLines(item, indent, prefix, p) == [FlushLine(indent, prefix, p.plainText(InlineTexts(item.children)))]
  {
    FoldFlat(item, |item.children|, indent, prefix, p);
    assert item.children[..|item.children|] == item.children;
    var text := p.plainText(InlineTexts(item.children));
    if Text.IsBlank(text) {
      BlankFlushLine(indent, prefix, text);
    }
  }

  /** Flushing blank text gives the bare marker. */
  lemma BlankFlushLine(indent: nat, prefix: string, text: string)
    requires Text.IsBlank(text)
    ensures FlushLine(indent, prefix, text) == Spaces(indent) + prefix
  {
    Text.StripSpec(text);
    assert Spaces(indent) + prefix + "" == Spaces(indent) + prefix;
  }

  /** A list whose items hold no nested lists. */
  predicate AllFlat(l: ListNode) {
    forall i :: 0 <= i < |l.items| ==> IsFlat(l.items[i])
  }

  /** The one line of the `i`-th item (0-based) of such a list. */
  function FlatLine(l: ListNode, i: nat, indent: nat, p: Reparse): string
    requires i < |l.items| && AllFlat(l)
  {
    assert IsFlat(l.items[i]);
    FlushLine(indent, Prefix(l.ordered, i + 1), p.plainText(InlineTexts(l.items[i].children)))
  }

  /** The lines of such a list, item by item. */
  function FlatLineOf(l: ListNode, indent: nat, p: Reparse): nat -> string {
    (i: nat) => if i < |l.items| && AllFlat(l) then FlatLine(l, i, indent, p) else ""
  }

  /** `[f(0), ..., f(k - 1)]` */
  function LinesOf(f: nat -> string, k: nat): (r: seq<string>)
    ensures |r| == k
  {
    if k == 0 then [] else LinesOf(f, k - 1) + [f(k - 1)]
  }

  lemma {:induction false} LinesOfAt(f: nat -> string, k: nat, i: nat)
    requires i < k
    ensures LinesOf(f, k)[i] == f(i)
  {
    if i < k - 1 {
      LinesOfAt(f, k - 1, i);
    }
  }

  /** A list of items without nested lists: one line per item, marked
      `1. `, `2. `, ... when ordered and `- ` otherwise. */
  lemma {:induction false} FlatListLines(l: ListNode, k: nat, indent: nat, p: Reparse)
    requires k <= |l.items| && AllFlat(l)
    ensures ListLinesFrom(l, k, indent, p) == LinesOf(FlatLineOf(l, indent, p), k)
  {
    if k > 0 {
      FlatListLines(l, k - 1, indent, p);
      var item := l.items[k - 1];
      assert IsFlat(item);
      FlatItemLines(item, indent, Prefix(l.ordered, k), p);
      assert FlatLineOf(l, indent, p)(k - 1) == FlatLine(l, k - 1, indent, p);
    }
  }

  /** Every line of such a list is one the chunker recognises as the start
      of a list item. */
  lemma FlatListMarkers(l: ListNode, indent: nat, p: Reparse)
    requires AllFlat(l)
    ensures forall line <- ListLines(l, indent, p) :: Markdown.IsListItemStart(line)
  {
    var f := FlatLineOf(l, indent, p);
    FlatListLines(l, |l.items|, indent, p);
    forall i | 0 <= i < |l.items|
      ensures Markdown.IsListItemStart(LinesOf(f, |l.items|)[i])
    {
      LinesOfAt(f, |l.items|, i);
      FlatLineIsListItemStart(l, i, indent, p);
    }
  }

  lemma FlatLineIsListItemStart(l: ListNode, i: nat, indent: nat, p: Reparse)
    requires i < |l.items| && AllFlat(l)
    ensures Markdown.IsListItemStart(FlatLine(l, i, indent, p))
  {
    assert IsFlat(l.items[i]);
    var rest := Text.Strip(p.plainText(InlineTexts(l.items[i].children)));
    MarkerIsListItemStart(indent, l.ordered, i + 1, rest);
  }

  /** The chunker's list recogniser accepts every marker line, indented
      or not, with or without text after the marker. */
  lemma MarkerIsListItemStart(indent: nat, ordered: bool, idx: nat, rest: string)
    ensures Markdown.IsListItemStart(Spaces(indent) + Prefix(ordered, idx) + rest)
  {
    var marked := Prefix(ordered, idx) + rest;
    PrefixIsListMarker(ordered, idx, rest);
    IndentedListMarker(indent, marked);
    assert Spaces(indent) + Prefix(ordered, idx) + rest == Spaces(indent) + marked;
  }

  lemma {:induction false} IndentedListMarker(indent: nat, line: string)
    requires Markdown.IsListMarker(line) && line != "" && !Text.IsSpace(line[0])
    ensures Markdown.IsListItemStart(Spaces(indent) + line)
  {
    if indent > 0 {
      assert (Spaces(indent) + line)[1..] == Spaces(indent - 1) + line;
      IndentedListMarker(indent - 1, line);
    } else {
      assert Spaces(indent) + line == line;
    }
  }

  lemma {:induction false} PrefixIsListMarker(ordered: bool, idx: nat, rest: string)
    ensures var line := Prefix(ordered, idx) + rest;
      Markdown.IsListMarker(line) && line != "" && !Text.IsSpace(line[0])
  {
    var line := Prefix(ordered, idx) + rest;
    if ordered {
      var digits := Text.NatToString(idx);
      assert line == digits + (". " + rest);
      DigitRunPrefix(digits, ". " + rest);
      assert line[|digits|] == '.' && line[|digits| + 1] == ' ';
      Text.DigitNotSpace(line[0]);
    } else {
      assert line[..2] == "- ";
    }
  }

  lemma {:induction false} DigitRunPrefix(digits: string, rest: string)
    requires forall i :: 0 <= i < |digits| ==> Text.IsDigit(digits[i])
    requires rest != "" && !Text.IsDigit(rest[0])
    ensures Markdown.DigitRun(digits + rest) == |digits|
  {
    if digits != [] {
      assert (digits + rest)[1..] == digits[1..] + rest;
      DigitRunPrefix(digits[1..], rest);
    } else {
      assert digits + rest == rest;
    }
  }

  /** `_render_list`: the list renderer, one item after another. */
  method RenderList(l: ListNode, indent: nat, p: Reparse) returns (lines: seq<string>)
    ensures lines == ListLines(l, indent, p)
    decreases l, 2
  {
    lines := [];
    for idx := 1 to |l.items| + 1
      invariant lines == ListLinesFrom(l, idx - 1, indent, p)
    {
      var item := l.items[idx - 1];
      assert item in l.items;
      var sub := RenderItem(item, indent, Prefix(l.ordered, idx), p);
      lines := lines + sub;
    }
  }

  /** The body of the item loop of `_render_list`. */
  method RenderItem(item: Item, indent: nat, prefix: string, p: Reparse) returns (sublines: seq<string>)
    ensures sublines == ItemLines(item, indent, prefix, p)
    decreases item, 1
  {
    var buffer, marker;
    sublines, buffer, marker := ScanChildren(item, indent, prefix, p);
    var text := p.plainText(buffer);
    if !Text.IsBlank(text) {
      sublines := sublines + [FlushLine(indent, marker, text)];
    }
    if sublines == [] {
      sublines := [Spaces(indent) + marker];
    }
  }

  /** The loop over an item's children: text goes to the buffer, a nested
      list flushes it and renders itself. */
  method ScanChildren(item: Item, indent: nat, prefix: string, p: Reparse)
    returns (sublines: seq<string>, buffer: string, marker: string)
    ensures ItemState(sublines, buffer, marker) == FoldItem(item, |item.children|, indent, prefix, p)
    decreases item, 0
  {
    sublines, buffer, marker := [], "", prefix;
    for j := 0 to |item.children|
      invariant ItemState(sublines, buffer, marker) == FoldItem(item, j, indent, prefix, p)
    {
      ghost var before := ItemState(sublines, buffer, marker);
      assert item.children[j] in item.children;
      match item.children[j]
      case Inline(s) =>
        buffer := buffer + s;
      case Nested(l) =>
        var text := p.inlineText(buffer);
        if !Text.IsBlank(text) {
          sublines := sublines + [FlushLine(indent, marker, text)];
          marker := "  ";
        }
        var nestedLines := RenderList(l, indent + 2, p);
        var nested := Text.Join("\n", nestedLines);
        sublines := sublines + IndentEach(Text.SplitLines(nested), indent + 2);
        buffer := "";
        assert ItemState(sublines, buffer, marker) == NestedStep(before, indent, text, nestedLines);
    }
  }

  // ---------------------------------------------------------------- tables

  /** A `<tr>`: the inline texts of its `<th>`/`<td>` cells and whether it
      holds a `<th>`. */
  datatype Row = Row(cells: seq<string>, hasHeaderCell: bool)

  /** A `<table>`: every `<tr>` inside it (those of its `<thead>`
      included), and the first `<tr>` of its `<thead>` when it has one. */
  datatype Table = Table(rows: seq<Row>, theadRow: Option<Row>)

  /** `' '.join(text.split())`: runs of whitespace become one space. */
  function CellText(raw: string): string {
    Text.Join(" ", Text.Words(raw))
  }

  /** `_cells_text` */
  function CellTexts(r: Row): (cells: seq<string>)
    ensures |cells| == |r.cells|
  {
    seq(|r.cells|, k requires 0 <= k < |r.cells| => CellText(r.cells[k]))
  }

  /** `"| " + " | ".join(cells) + " |"` */
  function RowLine(cells: seq<string>): string {
    "| " + Text.Join(" | ", cells) + " |"
  }

  /** `["---"] * n` */
  function Dashes(n: nat): (cells: seq<string>)
    ensures |cells| == n && forall k :: 0 <= k < n ==> cells[k] == "---"
  {
    seq(n, _ => "---")
  }

  /** The first row holding a `<th>`. */
  function FirstHeaderRow(rows: seq<Row>): (r: Option<Row>)
    ensures r.None? <==> forall k :: 0 <= k < |rows| ==> !rows[k].hasHeaderCell
    ensures r.Some? ==> exists k :: 0 <= k < |rows| && rows[k] == r.value && rows[k].hasHeaderCell
  {
    if rows == [] then None
    else if rows[0].hasHeaderCell then Some(rows[0])
    else
      var r := FirstHeaderRow(rows[1..]);
      assert forall k :: 1 <= k < |rows| ==> rows[k] == rows[1..][k - 1];
      r
  }

  /** The header cells and the rows rendered after them: the `<thead>`'s
      first row, else the first row with a `<th>` (all rows then follow it,
      that one included), else the first row (the others follow it). */
  function HeaderAndBody(t: Table): (seq<string>, seq<Row>)
    requires t.rows != []
  {
    if t.theadRow.Some? then (CellTexts(t.theadRow.value), t.rows)
    else match FirstHeaderRow(t.rows)
      case Some(r) => (CellTexts(r), t.rows)
      case None => (CellTexts(t.rows[0]), t.rows[1..])
  }

  /** The rows of `rows` that have at least one cell. */
  function RowsWithCells(rows: seq<Row>): (kept: seq<Row>)
    ensures forall r <- kept :: r in rows && r.cells != []
    ensures forall r <- rows :: r.cells != [] ==> r in kept
  {
    if rows == [] then []
    else
      var init := RowsWithCells(rows[..|rows| - 1]);
      var last := rows[|rows| - 1];
      assert rows == rows[..|rows| - 1] + [last];
      if last.cells == [] then init else init + [last]
  }

  /** The lines of the body rows. */
  function BodyLines(rows: seq<Row>): seq<string> {
    if rows == [] then [] else BodyLines(rows[..|rows| - 1]) + BodyLine(rows[|rows| - 1])
  }

  /** The line of one body row, none when it has no cells. */
  function BodyLine(r: Row): seq<string> {
    var cells := CellTexts(r);
    if cells == [] then [] else [RowLine(cells)]
  }

  /** The lines of a table with at least one row. */
  function TableLines(t: Table): seq<string>
    requires t.rows != []
  {
    var (header, body) := HeaderAndBody(t);
    (if header == [] then [] else [RowLine(header), RowLine(Dashes(|header|))]) + BodyLines(body)
  }

  /** `_table_to_markdown`: nothing for a table without rows. */
  function TableMarkdown(t: Table): (md: string)
    ensures t.rows == [] ==> md == ""
  {
    if t.rows == [] then "" else Text.Join("\n", TableLines(t))
  }

  /** `_table_to_markdown`, with its loop over the body rows. */
  method TableToMarkdown(t: Table) returns (md: string)
    ensures md == TableMarkdown(t)
  {
    if t.rows == [] {
      return "";
    }
    var (header, body) := HeaderAndBody(t);
    var out: seq<string> := [];
    if header != [] {
      out := [RowLine(header), RowLine(Dashes(|header|))];
    }
    out := AppendBodyLines(out, body);
    md := Text.Join("\n", out);
  }

  /** The loop over the body rows: rows with cells add their line. */
  method AppendBodyLines(head: seq<string>, body: seq<Row>) returns (out: seq<string>)
    ensures out == head + BodyLines(body)
  {
    out := head;
    for i := 0 to |body|
      invariant out == head + BodyLines(body[..i])
    {
      BodyLinesSnoc(body, i);
      var cells := CellTexts(body[i]);
      if cells != [] {
        out := out + [RowLine(cells)];
      }
      assert out == head + BodyLines(body[..i]) + BodyLine(body[i]);
    }
    assert body[..|body|] == body;
  }

  lemma BodyLinesSnoc(rows: seq<Row>, i: nat)
    requires i < |rows|
    ensures BodyLines(rows[..i + 1]) == BodyLines(rows[..i]) + BodyLine(rows[i])
  {
    assert rows[..i + 1][..i] == rows[..i];
  }

  /** The body lines are the rendered rows that have cells, in order:
      rows without cells are left out. */
  lemma {:induction false} BodyLinesRows(rows: seq<Row>)
    ensures var kept := RowsWithCells(rows);
      |BodyLines(rows)| == |kept|
      && forall k :: 0 <= k < |kept| ==> BodyLines(rows)[k] == RowLine(CellTexts(kept[k]))
  {
    if rows != [] {
      BodyLinesRows(rows[..|rows| - 1]);
    }
  }

  /** A table with rows: when the header has cells, its line comes first,
      then a separator with as many `---` cells, then the body lines. */
  lemma TableShape(t: Table)
    requires t.rows != []
    ensures var (header, body) := HeaderAndBody(t);
      var lines := TableLines(t);
      if header == [] then lines == BodyLines(body)
      else
        && |lines| == 2 + |BodyLines(body)|
        && lines[0] == RowLine(header)
        && lines[1] == RowLine(Dashes(|header|))
        && lines[2..] == BodyLines(body)
  {
  }

  /** The cells the chunker sees in a separator line once its outer pipes
      are dropped. */
  function SeparatorCells(n: nat): (cells: seq<string>)
    ensures |cells| == n && forall k :: 0 <= k < n ==> cells[k] == " --- "
  {
    seq(n, _ => " --- ")
  }

  lemma DashesJoin(n: nat)
    requires n >= 1
    ensures " " + Text.Join(" | ", Dashes(n)) + " " == Text.Join("|", SeparatorCells(n))
  {
    PaddedJoin(Dashes(n), SeparatorCells(n), "---");
  }

  /** Joining with `" | "` and padding both ends is joining the padded
      cells with `"|"`. */
  lemma {:induction false} PaddedJoin(cells: seq<string>, padded: seq<string>, d: string)
    requires |cells| == |padded| >= 1
    requires forall k :: 0 <= k < |cells| ==> cells[k] == d && padded[k] == " " + d + " "
    ensures " " + Text.Join(" | ", cells) + " " == Text.Join("|", padded)
  {
    if |cells| > 1 {
      PaddedJoin(cells[1..], padded[1..], d);
      var rest := Text.Join(" | ", cells[1..]);
      assert Text.Join(" | ", cells) == d + " | " + rest;
      assert Text.Join("|", padded) == padded[0] + "|" + Text.Join("|", padded[1..]);
      assert " " + (d + " | " + rest) + " " == (" " + d + " ") + "|" + (" " + rest + " ");
    }
  }

  /** Splitting a join at its one-character separator gives the parts
      back, when no part holds that character. */
  lemma {:induction false} SplitOnJoin(parts: seq<string>, c: char)
    requires |parts| >= 1 && forall k :: 0 <= k < |parts| ==> c !in parts[k]
    ensures Text.SplitOn(Text.Join([c], parts), c) == parts
  {
    if |parts| > 1 {
      var tail := Text.Join([c], parts[1..]);
      assert Text.Join([c], parts) == parts[0] + [c] + tail;
      SplitOnCons(parts[0], c, tail);
      SplitOnJoin(parts[1..], c);
      assert parts == [parts[0]] + parts[1..];
    }
  }

  lemma SplitOnCons(head: string, c: char, tail: string)
    requires c !in head
    ensures Text.SplitOn(head + [c] + tail, c) == [head] + Text.SplitOn(tail, c)
  {
    var s := head + [c] + tail;
    assert s[|head|] == c && s[..|head|] == head;
    assert Text.FirstIndex(s, c) == |head|;
    assert s[|head| + 1..] == tail;
  }

  lemma SeparatorCellAccepted()
    ensures Markdown.IsSeparatorCell(" --- ")
  {
    StripSeparatorCell();
    ThreeDashes();
    DashCellAccepted(" --- ", "---");
  }

  /** A cell that strips to a run of at least three dashes is a separator cell. */
  lemma DashCellAccepted(cell: string, d: string)
    requires Text.Strip(cell) == d && |d| >= 3 && d[0] == '-' && d[|d| - 1] == '-'
    requires Markdown.AllDashes(d)
    ensures Markdown.IsSeparatorCell(cell)
  {
  }

  lemma StripSeparatorCell()
    ensures Text.Strip(" --- ") == "---"
  {
    LStripSeparatorCell();
    RStripSeparatorCell();
  }

  lemma LStripSeparatorCell()
    ensures Text.LStrip(" --- ") == "--- "
  {
    LStripOneSpace(" --- ", "--- ");
  }

  lemma RStripSeparatorCell()
    ensures Text.RStrip("--- ") == "---"
  {
    RStripOneSpace("--- ", "---");
  }

  lemma LStripOneSpace(s: string, rest: string)
    requires |s| >= 2 && Text.IsSpace(s[0]) && !Text.IsSpace(s[1]) && s[1..] == rest
    ensures Text.LStrip(s) == rest
  {
  }

  lemma RStripOneSpace(s: string, rest: string)
    requires |s| >= 2 && Text.IsSpace(s[|s| - 1]) && !Text.IsSpace(s[|s| - 2]) && s[..|s| - 1] == rest
    ensures Text.RStrip(s) == rest
  {
  }

  lemma ThreeDashes()
    ensures Markdown.AllDashes("---")
  {
    assert "---"[1..] == "--" && "--"[1..] == "-" && "-"[1..] == "";
  }

  lemma SeparatorCellsAccepted(n: nat)
    ensures Markdown.AllSeparatorCells(SeparatorCells(n))
  {
    SeparatorCellAccepted();
    AllCellsAccepted(SeparatorCells(n), " --- ");
  }

  lemma {:induction false} AllCellsAccepted(cells: seq<string>, cell: string)
    requires Markdown.IsSeparatorCell(cell)
    requires forall k :: 0 <= k < |cells| ==> cells[k] == cell
    ensures Markdown.AllSeparatorCells(cells)
  {
    if cells != [] {
      AllCellsAccepted(cells[1..], cell);
    }
  }

  /** The chunker's `strip("|")` of a row takes back exactly the two
      outer pipes of a rendered row. */
  lemma DropPipesAround(mid: string)
    ensures Markdown.DropOuterPipes("|" + mid + "|") == mid
  {
    var t := "|" + mid + "|";
    assert t[1..] == mid + "|";
  }

  /** The chunker recognises the separator row written under a header of
      `n` cells as a table separator exactly when `n` is at least two: a
      one-column table is not read back as a table. */
  lemma SeparatorRecognised(n: nat)
    ensures Markdown.IsTableSeparator(RowLine(Dashes(n))) <==> n >= 2
  {
    var line := RowLine(Dashes(n));
    assert line[0] == '|' && line[|line| - 1] == '|';
    Text.StripUnchanged(line);
    var mid := " " + Text.Join(" | ", Dashes(n)) + " ";
    assert line == "|" + mid + "|";
    DropPipesAround(mid);
    var inner := Markdown.DropOuterPipes(line);
    assert inner == mid;
    if n == 0 {
      assert inner == "  ";
      assert '|' !in inner;
    } else {
      DashesJoin(n);
      assert Text.Join("|", SeparatorCells(n)) == Text.Join(['|'], SeparatorCells(n));
      SplitOnJoin(SeparatorCells(n), '|');
      SeparatorCellsAccepted(n);
    }
  }

  // ---------------------------------------------------------------- blocks

  /** The level of `<h1>` ... `<h6>`. */
  type Level = n: nat | 1 <= n <= 6 witness 1

  /** A block-level child of `<body>`, with the text the converter takes
      from it: the inline rendering of its children (headings, paragraphs,
      block quotes) or its plain text (`<pre>` and anything else). */
  datatype Block =
    | Heading(level: Level, inline: string)
    | Paragraph(inline: string)
    | Preformatted(code: string)
    | Blockquote(inline: string)
    | List(list: ListNode)
    | Rule
    | TableBlock(table: Table)
    | Other(text: string)

  /** `"#" * n` */
  function Hashes(n: nat): (s: string)
    ensures |s| == n && forall i :: 0 <= i < n ==> s[i] == '#'
  {
    seq(n, _ => '#')
  }

  /** The lines of a block quote: each source line behind `"> "`, right-stripped. */
  function QuoteLines(raw: string): (lines: seq<string>)
    ensures |lines| == |Text.SplitLines(raw)|
  {
    var src := Text.SplitLines(raw);
    seq(|src|, k requires 0 <= k < |src| => Text.RStrip("> " + src[k]))
  }

  /** `_block_to_markdown`: every block renders as nothing or as text
      ending in a line feed; a paragraph renders as nothing exactly when
      its text is blank. */
  function BlockMarkdown(b: Block, p: Reparse): (md: string)
    ensures md == "" || md[|md| - 1] == '\n'
    ensures b.Paragraph? ==> (md == "" <==> Text.IsBlank(b.inline))
  {
    match b
    case Heading(level, inline) => Hashes(level) + " " + Text.Strip(inline) + "\n"
    case Paragraph(inline) =>
      var t := Text.Strip(inline);
      Text.StripSpec(inline);
      if t != "" then t + "\n" else ""
    case Preformatted(code) => "```\n" + Text.RStrip(code) + "\n```\n"
    case Blockquote(inline) => Text.Join("\n", QuoteLines(inline)) + "\n"
    case List(l) => Text.Join("\n", ListLines(l, 0, p)) + "\n"
    case Rule => "---\n"
    case TableBlock(t) =>
      var tbl := TableMarkdown(t);
      if tbl != "" then tbl + "\n" else ""
    case Other(text) =>
      var t := Text.Strip(text);
      t + (if t != "" then "\n" else "")
  }

  /** `_block_to_markdown`, rendering lists and tables with their loops. */
  method BlockToMarkdown(b: Block, p: Reparse) returns (md: string)
    ensures md == BlockMarkdown(b, p)
  {
    match b
    case List(l) =>
      var lines := RenderList(l, 0, p);
      md := Text.Join("\n", lines) + "\n";
    case TableBlock(t) =>
      var tbl := TableToMarkdown(t);
      md := if tbl != "" then tbl + "\n" else "";
    case _ =>
      md := BlockMarkdown(b, p);
  }

  /** A heading with text renders as a line the chunker reads back as a
      heading of the same level whose title is the stripped text. */
  lemma HeadingReadBack(level: Level, inline: string, p: Reparse)
    requires !Text.IsBlank(inline)
    ensures var line := Hashes(level) + " " + Text.Strip(inline);
      && BlockMarkdown(Heading(level, inline), p) == line + "\n"
      && Markdown.IsHeading(line)
      && Markdown.HeadingLevel(line) == level
      && Markdown.HeadingTitle(line) == Text.Strip(inline)
  {
    HeadingBlock(level, inline, p);
    Text.StripSpec(inline);
    TitleLineReadBack(level, Text.Strip(inline));
  }

  /** Hashes, a space and a stripped non-empty title form a heading line
      of that level and title. */
  lemma TitleLineReadBack(level: Level, t: string)
    requires t != "" && !Text.IsSpace(t[0]) && !Text.IsSpace(t[|t| - 1])
    ensures var line := Hashes(level) + " " + t;
      && Markdown.IsHeading(line)
      && Markdown.HeadingLevel(line) == level
      && Markdown.HeadingTitle(line) == t
  {
    var line := Hashes(level) + " " + t;
    LeadingHashesOf(level, " " + t);
    assert line == Hashes(level) + (" " + t);
    assert line[level..] == " " + t;
    Text.StripUnchanged(t);
    StripAfterSpace(t);
  }

  /** A heading whose text is blank renders as hashes and a space, which
      the chunker does not take for a heading. */
  lemma BlankHeadingNotRead(level: Level, inline: string, p: Reparse)
    requires Text.IsBlank(inline)
    ensures BlockMarkdown(Heading(level, inline), p) == Hashes(level) + " \n"
    ensures !Markdown.IsHeading(Hashes(level) + " ")
  {
    HeadingBlock(level, inline, p);
    assert Text.Strip(inline) == "" by {
      Text.StripSpec(inline);
    }
    EmptyTitleLine(Hashes(level));
    HashesAloneNotHeading(level);
  }

  lemma EmptyTitleLine(h: string)
    ensures h + " " + "" + "\n" == h + " \n"
  {
  }

  lemma HeadingBlock(level: Level, inline: string, p: Reparse)
    ensures BlockMarkdown(Heading(level, inline), p) == Hashes(level) + " " + Text.Strip(inline) + "\n"
  {
  }

  /** Hashes and one space leave no title for the heading pattern. */
  lemma HashesAloneNotHeading(level: Level)
    ensures !Markdown.IsHeading(Hashes(level) + " ")
  {
    LeadingHashesOf(level, " ");
  }

  lemma {:induction false} LeadingHashesOf(n: nat, rest: string)
    requires rest != "" && rest[0] != '#'
    ensures Markdown.LeadingHashes(Hashes(n) + rest) == n
  {
    if n > 0 {
      assert (Hashes(n) + rest)[1..] == Hashes(n - 1) + rest;
      LeadingHashesOf(n - 1, rest);
    } else {
      assert Hashes(n) + rest == rest;
    }
  }

  lemma StripAfterSpace(t: string)
    requires Text.Strip(t) == t && t != ""
    ensures Text.Strip(" " + t) == t
  {
    Text.StripSpec(t);
    assert (" " + t)[1..] == t;
    assert Text.LStrip(" " + t) == Text.LStrip(t);
    assert Text.LStrip(t) == t;
  }

  /** Every block-quote line starts with `>` and does not end in
      whitespace: it is `"> "` and the right-stripped source line, or a
      lone `>` for a blank source line. */
  lemma QuoteLinesShape(raw: string, k: nat)
    requires k < |Text.SplitLines(raw)|
    ensures var src := Text.SplitLines(raw)[k];
      var line := QuoteLines(raw)[k];
      && line == (if Text.IsBlank(src) then ">" else "> " + Text.RStrip(src))
      && line[0] == '>' && !Text.IsSpace(line[|line| - 1])
  {
    var src := Text.SplitLines(raw)[k];
    var line := QuoteLines(raw)[k];
    assert line == Text.RStrip("> " + src);
    RStripAfter("> ", src);
    if Text.IsBlank(src) {
      QuoteMark();
    } else {
      var rest := Text.RStrip(src);
      assert line == "> " + rest && rest != "";
      assert line[|line| - 1] == rest[|rest| - 1];
    }
  }

  lemma QuoteMark()
    ensures Text.RStrip("> ") == ">"
  {
    assert "> "[..1] == ">";
  }

  /** `(a + b).rstrip()`: `a` and the stripped `b`, or the stripped `a`
      when `b` is blank. */
  lemma {:induction false} RStripAfter(a: string, b: string)
    ensures Text.RStrip(a + b) == if Text.IsBlank(b) then Text.RStrip(a) else a + Text.RStrip(b)
  {
    if b == "" {
      assert a + b == a;
    } else if Text.IsSpace(b[|b| - 1]) {
      var init := b[..|b| - 1];
      assert (a + b)[..|a + b| - 1] == a + init;
      RStripAfter(a, init);
      assert Text.IsBlank(b) <==> Text.IsBlank(init);
    } else {
      assert (a + b)[|a + b| - 1] == b[|b| - 1];
      assert Text.RStrip(a + b) == a + b && Text.RStrip(b) == b;
    }
  }

  // ---------------------------------------------------------------- assembly

  /** A child of `<body>`: a text node or a tag. */
  datatype BodyNode = Loose(text: string) | Element(block: Block)

  /** What a child adds to `parts`: a blank text node adds nothing. */
  function PartOf(n: BodyNode, p: Reparse): seq<string> {
    match n
    case Loose(t) => if Text.IsBlank(t) then [] else [Text.Strip(t) + "\n"]
    case Element(b) => [BlockMarkdown(b, p)]
  }

  /** `parts` after the first loop of `html_to_markdown`. */
  function Parts(body: seq<BodyNode>, p: Reparse): seq<string> {
    if body == [] then [] else Parts(body[..|body| - 1], p) + PartOf(body[|body| - 1], p)
  }

  /** `s.endswith("\n")` */
  predicate EndsInLineFeed(s: string) {
    |s| >= 1 && s[|s| - 1] == '\n'
  }

  /** `s.endswith("\n\n")` */
  predicate EndsInBlankLine(s: string) {
    |s| >= 2 && s[|s| - 2] == '\n' && s[|s| - 1] == '\n'
  }

  /** `s.startswith("\n")` */
  predicate StartsWithLineFeed(s: string) {
    |s| >= 1 && s[0] == '\n'
  }

  /** One step of the join loop: an empty chunk is skipped; otherwise a
      line feed goes in front of it unless `md` already ends in one or the
      chunk starts with one, and one goes after it unless the result ends
      in a blank line. */
  function AppendChunk(md: string, chunk: string): string {
    if chunk == "" then md
    else
      var sep := if !EndsInBlankLine(md) && !EndsInLineFeed(md) && !StartsWithLineFeed(chunk) then "\n" else "";
      var grown := md + sep + chunk;
      if EndsInBlankLine(grown) then grown else grown + "\n"
  }

  /** `md` after the join loop over `parts`. */
  function Assembled(parts: seq<string>): string {
    if parts == [] then "" else AppendChunk(Assembled(parts[..|parts| - 1]), parts[|parts| - 1])
  }

  /** The parts that are not empty. */
  function NonEmptyParts(parts: seq<string>): (r: seq<string>)
    ensures forall c <- r :: c != "" && c in parts
  {
    if parts == [] then []
    else
      var init := NonEmptyParts(parts[..|parts| - 1]);
      var last := parts[|parts| - 1];
      if last == "" then init else init + [last]
  }

  /** Empty parts contribute nothing to the joined text. */
  lemma {:induction false} AssembledSkipsEmpty(parts: seq<string>)
    ensures Assembled(parts) == Assembled(NonEmptyParts(parts))
  {
    if parts != [] {
      var init := parts[..|parts| - 1];
      AssembledSkipsEmpty(init);
      var last := parts[|parts| - 1];
      if last != "" {
        var kept := NonEmptyParts(init) + [last];
        assert kept[..|kept| - 1] == NonEmptyParts(init);
      }
    }
  }

  /** `"\n"` when `b` holds, `""` otherwise. */
  function LineFeedIf(b: bool): string {
    if b then "\n" else ""
  }

  /** A non-empty chunk is appended whole, with at most one line feed
      before it and at most one after it. */
  lemma AppendChunkShape(md: string, chunk: string) returns (before: bool, after: bool)
    requires chunk != ""
    ensures AppendChunk(md, chunk) == md + LineFeedIf(before) + chunk + LineFeedIf(after)
  {
    before := !EndsInBlankLine(md) && !EndsInLineFeed(md) && !StartsWithLineFeed(chunk);
    var grown := md + LineFeedIf(before) + chunk;
    after := !EndsInBlankLine(grown);
  }

  /** After a non-empty chunk the text ends in a line feed, and in a blank
      line when the chunk itself ends in a line feed. */
  lemma AppendChunkEnd(md: string, chunk: string)
    requires chunk != ""
    ensures var r := AppendChunk(md, chunk);
      && EndsInLineFeed(r)
      && (chunk[|chunk| - 1] == '\n' ==> EndsInBlankLine(r))
  {
    var before, after := AppendChunkShape(md, chunk);
    var grown := md + LineFeedIf(before) + chunk;
    var r := AppendChunk(md, chunk);
    assert grown[|grown| - 1] == chunk[|chunk| - 1];
    if after {
      assert r == grown + "\n";
      assert r[|r| - 2] == grown[|grown| - 1];
    }
  }

  /** When every part ends in a line feed, as every rendered block does,
      the joined text is empty or ends in a blank line: consecutive blocks
      are separated by an empty line. */
  lemma {:induction false} AssembledEndsInBlankLine(parts: seq<string>)
    requires forall c <- parts :: c == "" || c[|c| - 1] == '\n'
    ensures var md := Assembled(parts); md == "" || EndsInBlankLine(md)
  {
    if parts != [] {
      var init := parts[..|parts| - 1];
      AssembledEndsInBlankLine(init);
      var last := parts[|parts| - 1];
      if last != "" {
        AppendChunkEnd(Assembled(init), last);
      }
    }
  }

  /** The join loop of `html_to_markdown`. */
  method JoinBlocks(parts: seq<string>) returns (md: string)
    ensures md == Assembled(parts)
  {
    md := "";
    for i := 0 to |parts|
      invariant md == Assembled(parts[..i])
    {
      assert parts[..i + 1][..i] == parts[..i];
      var chunk := parts[i];
      if chunk == "" {
        continue;
      }
      ghost var before := md;
      if !EndsInBlankLine(md) && !EndsInLineFeed(md) && !StartsWithLineFeed(chunk) {
        md := md + "\n";
      }
      md := md + chunk;
      if !EndsInBlankLine(md) {
        md := md + "\n";
      }
      assert md == AppendChunk(before, chunk);
    }
    assert parts[..|parts|] == parts;
  }

  // ---------------------------------------------------------------- compaction

  /** The compacted lines so far and the length of the current run of
      blank lines. */
  datatype Compaction = Compaction(compact: seq<string>, empties: nat)

  /** One step of the compaction loop: a blank line is kept, as `""`, only
      as the first or second of its run. */
  function CompactStep(st: Compaction, line: string): Compaction {
    if Text.IsBlank(line) then
      Compaction(if st.empties + 1 <= 2 then st.compact + [""] else st.compact, st.empties + 1)
    else Compaction(st.compact + [line], 0)
  }

  /** The compaction loop over `lines`. */
  function CompactFrom(lines: seq<string>): (st: Compaction)
    ensures forall c <- st.compact :: c == "" || c in lines
  {
    if lines == [] then Compaction([], 0)
    else CompactStep(CompactFrom(lines[..|lines| - 1]), lines[|lines| - 1])
  }

  function Compacted(lines: seq<string>): seq<string> {
    CompactFrom(lines).compact
  }

  /** The compaction loop of `html_to_markdown`. */
  method Compact(lines: seq<string>) returns (compact: seq<string>)
    ensures compact == Compacted(lines)
  {
    compact := [];
    var empties := 0;
    for i := 0 to |lines|
      invariant Compaction(compact, empties) == CompactFrom(lines[..i])
    {
      assert lines[..i + 1][..i] == lines[..i];
      var line := lines[i];
      if Text.IsBlank(line) {
        empties := empties + 1;
        if empties <= 2 {
          compact := compact + [""];
        }
      } else {
        empties := 0;
        compact := compact + [line];
      }
    }
    assert lines[..|lines|] == lines;
  }

  /** No three consecutive empty lines. */
  predicate NoThreeEmpty(ls: seq<string>) {
    forall i :: 0 <= i && i + 2 < |ls| ==> !ThreeEmptyAt(ls, i)
  }

  predicate ThreeEmptyAt(ls: seq<string>, i: int)
    requires 0 <= i && i + 2 < |ls|
  {
    ls[i] == "" && ls[i + 1] == "" && ls[i + 2] == ""
  }

  /** The number of empty lines at the end. */
  function TrailingEmpty(ls: seq<string>): nat {
    if ls != [] && ls[|ls| - 1] == "" then 1 + TrailingEmpty(ls[..|ls| - 1]) else 0
  }

  /** What the compaction loop keeps true: at most two empty lines in a
      row, and as many empty lines at the end as the current blank run,
      up to two. */
  predicate CompactionInvariant(st: Compaction) {
    NoThreeEmpty(st.compact) && TrailingEmpty(st.compact) == if st.empties <= 2 then st.empties else 2
  }

  lemma {:induction false} CompactFromSpec(lines: seq<string>)
    ensures CompactionInvariant(CompactFrom(lines))
  {
    if lines != [] {
      CompactFromSpec(lines[..|lines| - 1]);
      CompactStepKeeps(CompactFrom(lines[..|lines| - 1]), lines[|lines| - 1]);
    }
  }

  lemma CompactStepKeeps(st: Compaction, line: string)
    requires CompactionInvariant(st)
    ensures CompactionInvariant(CompactStep(st, line))
  {
    if Text.IsBlank(line) && st.empties + 1 <= 2 {
      var c := st.compact + [""];
      assert c[..|c| - 1] == st.compact;
      forall i | 0 <= i && i + 2 < |c|
        ensures !ThreeEmptyAt(c, i)
      {
        if i + 2 < |c| - 1 {
          assert !ThreeEmptyAt(st.compact, i);
          assert c[i] == st.compact[i] && c[i + 1] == st.compact[i + 1] && c[i + 2] == st.compact[i + 2];
        } else if c[i] == "" && c[i + 1] == "" {
          TrailingTwo(st.compact);
        }
      }
    } else if !Text.IsBlank(line) {
      var c := st.compact + [line];
      assert c[..|c| - 1] == st.compact;
      assert line != "";
      forall i | 0 <= i && i + 2 < |c|
        ensures !ThreeEmptyAt(c, i)
      {
        if i + 2 < |c| - 1 {
          assert !ThreeEmptyAt(st.compact, i);
          assert c[i] == st.compact[i] && c[i + 1] == st.compact[i + 1] && c[i + 2] == st.compact[i + 2];
        }
      }
    }
  }

  lemma TrailingTwo(ls: seq<string>)
    requires |ls| >= 2 && ls[|ls| - 1] == "" && ls[|ls| - 2] == ""
    ensures TrailingEmpty(ls) >= 2
  {
    assert ls[..|ls| - 1][|ls| - 2] == "";
  }

  /** The compacted lines hold no three empty lines in a row. */
  lemma CompactedNoThreeEmpty(lines: seq<string>)
    ensures NoThreeEmpty(Compacted(lines))
  {
    CompactFromSpec(lines);
  }

  /** The lines that are not blank. */
  function NonBlank(ls: seq<string>): seq<string> {
    if ls == [] then []
    else
      var init := NonBlank(ls[..|ls| - 1]);
      var last := ls[|ls| - 1];
      if Text.IsBlank(last) then init else init + [last]
  }

  /** Compaction only drops blank lines: the other lines stay, in order. */
  lemma {:induction false} CompactedKeepsText(lines: seq<string>)
    ensures NonBlank(Compacted(lines)) == NonBlank(lines)
  {
    if lines != [] {
      var init := lines[..|lines| - 1];
      CompactedKeepsText(init);
      var c := Compacted(init);
      var line := lines[|lines| - 1];
      if Text.IsBlank(line) {
        var c2 := c + [""];
        assert c2[..|c2| - 1] == c;
      } else {
        var c2 := c + [line];
        assert c2[..|c2| - 1] == c;
      }
    }
  }

  // ---------------------------------------------------------------- the converter

  /** `[ln.rstrip() for ln in lines]` */
  function RStripAll(lines: seq<string>): (r: seq<string>)
    ensures |r| == |lines| && forall k :: 0 <= k < |lines| ==> r[k] == Text.RStrip(lines[k])
  {
    seq(|lines|, k requires 0 <= k < |lines| => Text.RStrip(lines[k]))
  }

  /** `"\n".join(compact).strip() + "\n"` */
  function Finish(compact: seq<string>): string {
    Text.Strip(Text.Join("\n", compact)) + "\n"
  }

  /** `html_to_markdown` on the children of `<body>`. */
  function Convert(body: seq<BodyNode>, p: Reparse): string {
    Finish(Compacted(RStripAll(Text.SplitLines(Assembled(Parts(body, p))))))
  }

  /** The first loop of `html_to_markdown`: one part per child, none for
      a blank text node. */
  method CollectParts(body: seq<BodyNode>, p: Reparse) returns (parts: seq<string>)
    ensures parts == Parts(body, p)
  {
    parts := [];
    for i := 0 to |body|
      invariant parts == Parts(body[..i], p)
    {
      assert body[..i + 1][..i] == body[..i];
      match body[i]
      case Loose(t) =>
        var text := Text.Strip(t);
        if text != "" {
          parts := parts + [text + "\n"];
        }
        Text.StripSpec(t);
      case Element(b) =>
        var md := BlockToMarkdown(b, p);
        parts := parts + [md];
    }
    assert body[..|body|] == body;
  }

  /** `html_to_markdown` */
  method HtmlToMarkdown(body: seq<BodyNode>, p: Reparse) returns (md: string)
    ensures md == Convert(body, p)
  {
    var parts := CollectParts(body, p);
    var joined := JoinBlocks(parts);
    var lines := RStripAll(Text.SplitLines(joined));
    var compact := Compact(lines);
    md := Finish(compact);
  }

  /** A line as the compaction leaves it: no line feed inside and no
      whitespace at the end. */
  predicate CleanLine(line: string) {
    '\n' !in line && (line == "" || !Text.IsSpace(line[|line| - 1]))
  }

  /** No line of `s` ends in whitespace: what precedes a line feed is a
      line feed (an empty line) or a character that is not whitespace. */
  predicate CleanLineEnds(s: string) {
    forall i :: 0 < i < |s| ==> CleanEndAt(s, i)
  }

  /** The line feed at `i`, if there is one, does not follow whitespace
      other than a line feed. */
  predicate CleanEndAt(s: string, i: int)
    requires 0 < i < |s|
  {
    s[i] == '\n' ==> s[i - 1] == '\n' || !Text.IsSpace(s[i - 1])
  }

  /** `s` holds no four line feeds in a row, so no three empty lines. */
  predicate NoFourLineFeeds(s: string) {
    forall i :: 0 <= i && i + 3 < |s| ==> !FourLineFeedsAt(s, i)
  }

  predicate FourLineFeedsAt(s: string, i: int)
    requires 0 <= i && i + 3 < |s|
  {
    s[i] == '\n' && s[i + 1] == '\n' && s[i + 2] == '\n' && s[i + 3] == '\n'
  }

  lemma {:induction false} JoinCleanEndsAt(ls: seq<string>, i: nat)
    requires forall k :: 0 <= k < |ls| ==> CleanLine(ls[k])
    requires 0 < i < |Text.Join("\n", ls)| && Text.Join("\n", ls)[i] == '\n'
    ensures var j := Text.Join("\n", ls); j[i - 1] == '\n' || !Text.IsSpace(j[i - 1])
  {
    var j := Text.Join("\n", ls);
    if |ls| > 1 {
      var h := ls[0];
      var t := Text.Join("\n", ls[1..]);
      assert j == h + "\n" + t;
      if i > |h| + 1 {
        assert t[i - |h| - 1] == j[i];
        JoinCleanEndsAt(ls[1..], i - |h| - 1);
        assert t[i - |h| - 2] == j[i - 1];
      } else if i == |h| {
        assert j[i - 1] == h[|h| - 1];
      }
    }
  }

  lemma JoinCleanEnds(ls: seq<string>)
    requires forall k :: 0 <= k < |ls| ==> CleanLine(ls[k])
    ensures CleanLineEnds(Text.Join("\n", ls))
  {
    var j := Text.Join("\n", ls);
    forall i | 0 < i < |j|
      ensures CleanEndAt(j, i)
    {
      if j[i] == '\n' {
        JoinCleanEndsAt(ls, i);
      }
    }
  }

  /** A join that starts with a line feed starts with an empty line. */
  lemma JoinLeadingLineFeed(ls: seq<string>)
    requires forall k :: 0 <= k < |ls| ==> '\n' !in ls[k]
    requires |Text.Join("\n", ls)| > 0 && Text.Join("\n", ls)[0] == '\n'
    ensures |ls| >= 2 && ls[0] == "" && Text.Join("\n", ls)[1..] == Text.Join("\n", ls[1..])
  {
    var j := Text.Join("\n", ls);
    if |ls| > 1 {
      assert j == ls[0] + "\n" + Text.Join("\n", ls[1..]);
    }
  }

  /** A join that starts with three line feeds starts with three empty lines. */
  lemma ThreeLeadingLineFeeds(ls: seq<string>)
    requires forall k :: 0 <= k < |ls| ==> '\n' !in ls[k]
    requires var j := Text.Join("\n", ls); |j| >= 3 && j[0] == '\n' && j[1] == '\n' && j[2] == '\n'
    ensures |ls| >= 3 && ls[0] == "" && ls[1] == "" && ls[2] == ""
  {
    JoinLeadingLineFeed(ls);
    JoinLeadingLineFeed(ls[1..]);
    JoinLeadingLineFeed(ls[2..]);
  }

  lemma {:induction false} JoinNoFourAt(ls: seq<string>, i: nat)
    requires forall k :: 0 <= k < |ls| ==> '\n' !in ls[k]
    requires NoThreeEmpty(ls)
    requires i + 3 < |Text.Join("\n", ls)|
    ensures var j := Text.Join("\n", ls);
      !(j[i] == '\n' && j[i + 1] == '\n' && j[i + 2] == '\n' && j[i + 3] == '\n')
  {
    var j := Text.Join("\n", ls);
    if |ls| > 1 {
      var h := ls[0];
      var t := Text.Join("\n", ls[1..]);
      assert j == h + "\n" + t;
      assert NoThreeEmpty(ls[1..]) by {
        forall m | 0 <= m && m + 2 < |ls[1..]|
          ensures !ThreeEmptyAt(ls[1..], m)
        {
          assert !ThreeEmptyAt(ls, m + 1);
          assert ls[1..][m] == ls[m + 1] && ls[1..][m + 1] == ls[m + 2] && ls[1..][m + 2] == ls[m + 3];
        }
      }
      if i == |h| {
        if t[0] == '\n' && t[1] == '\n' && t[2] == '\n' {
          ThreeLeadingLineFeeds(ls[1..]);
          assert ThreeEmptyAt(ls[1..], 0);
        }
      } else if i > |h| {
        JoinNoFourAt(ls[1..], i - |h| - 1);
        assert t[i - |h| - 1..i - |h| + 3] == j[i..i + 4];
      }
    }
  }

  lemma JoinNoFour(ls: seq<string>)
    requires forall k :: 0 <= k < |ls| ==> '\n' !in ls[k]
    requires NoThreeEmpty(ls)
    ensures NoFourLineFeeds(Text.Join("\n", ls))
  {
    var j := Text.Join("\n", ls);
    forall i | 0 <= i && i + 3 < |j|
      ensures !FourLineFeedsAt(j, i)
    {
      JoinNoFourAt(ls, i);
    }
  }


  /** `s.strip()` is a slice of `s` with no whitespace at either end. */
  lemma StripSlice(s: string) returns (a: nat)
    ensures a + |Text.Strip(s)| <= |s| && Text.Strip(s) == s[a..a + |Text.Strip(s)|]
    ensures Text.Stripped(Text.Strip(s))
  {
    var l := Text.LStrip(s);
    a := |s| - |l|;
    Text.StripSpec(s);
  }

  lemma SliceClean(j: string, a: nat, n: nat)
    requires a + n <= |j| && CleanLineEnds(j) && NoFourLineFeeds(j)
    ensures CleanLineEnds(j[a..a + n]) && NoFourLineFeeds(j[a..a + n])
  {
    var t := j[a..a + n];
    forall i | 0 < i < |t|
      ensures CleanEndAt(t, i)
    {
      assert CleanEndAt(j, a + i);
      assert t[i] == j[a + i] && t[i - 1] == j[a + i - 1];
    }
    forall i | 0 <= i && i + 3 < |t|
      ensures !FourLineFeedsAt(t, i)
    {
      assert !FourLineFeedsAt(j, a + i);
      assert t[i] == j[a + i] && t[i + 1] == j[a + i + 1];
      assert t[i + 2] == j[a + i + 2] && t[i + 3] == j[a + i + 3];
    }
  }

  lemma TrailingLineFeedClean(text: string)
    requires CleanLineEnds(text) && NoFourLineFeeds(text)
    requires text == "" || !Text.IsSpace(text[|text| - 1])
    ensures CleanLineEnds(text + "\n") && NoFourLineFeeds(text + "\n")
  {
    var r := text + "\n";
    forall i | 0 < i < |r|
      ensures CleanEndAt(r, i)
    {
      assert r[i - 1] == text[i - 1];
      if i < |text| {
        assert CleanEndAt(text, i);
        assert r[i] == text[i];
      }
    }
    forall i | 0 <= i && i + 3 < |r|
      ensures !FourLineFeedsAt(r, i)
    {
      if i + 3 < |text| {
        assert !FourLineFeedsAt(text, i);
        assert r[i] == text[i] && r[i + 1] == text[i + 1];
        assert r[i + 2] == text[i + 2] && r[i + 3] == text[i + 3];
      } else {
        assert r[|text| - 1] == text[|text| - 1];
      }
    }
  }

  /** The shape of the converter's output: a text with no whitespace at
      either end, then one line feed; no line ending in whitespace; never
      three empty lines in a row. */
  predicate OutputShape(r: string) {
    && |r| >= 1 && r[|r| - 1] == '\n' && Text.Stripped(r[..|r| - 1])
    && CleanLineEnds(r) && NoFourLineFeeds(r)
  }

  /** A stripped slice of a clean text, with one line feed added. */
  lemma SliceOutputShape(j: string, a: nat, text: string)
    requires a + |text| <= |j| && text == j[a..a + |text|]
    requires CleanLineEnds(j) && NoFourLineFeeds(j) && Text.Stripped(text)
    ensures OutputShape(text + "\n")
  {
    SliceClean(j, a, |text|);
    TrailingLineFeedClean(text);
    assert (text + "\n")[..|text|] == text;
  }

  /** Stripping a clean text and adding one line feed gives the output shape. */
  lemma StripOutputShape(j: string)
    requires CleanLineEnds(j) && NoFourLineFeeds(j)
    ensures OutputShape(Text.Strip(j) + "\n")
  {
    var a := StripSlice(j);
    SliceOutputShape(j, a, Text.Strip(j));
  }

  lemma FinishSpec(compact: seq<string>)
    requires forall k :: 0 <= k < |compact| ==> CleanLine(compact[k])
    requires NoThreeEmpty(compact)
    ensures OutputShape(Finish(compact))
  {
    JoinCleanEnds(compact);
    assert forall k :: 0 <= k < |compact| ==> '\n' !in compact[k];
    JoinNoFour(compact);
    StripOutputShape(Text.Join("\n", compact));
  }

  /** A line with no line feed, stripped at its end, is clean. */
  lemma RStripClean(line: string)
    requires '\n' !in line
    ensures CleanLine(Text.RStrip(line))
  {
  }

  /** Every line the compaction keeps is clean, and no three empty lines
      follow each other. */
  lemma CompactedClean(lines: seq<string>)
    requires forall k :: 0 <= k < |lines| ==> '\n' !in lines[k]
    ensures forall k :: 0 <= k < |Compacted(RStripAll(lines))| ==> CleanLine(Compacted(RStripAll(lines))[k])
    ensures NoThreeEmpty(Compacted(RStripAll(lines)))
  {
    var stripped := RStripAll(lines);
    forall k | 0 <= k < |stripped|
      ensures CleanLine(stripped[k])
    {
      RStripClean(lines[k]);
    }
    var compact := Compacted(stripped);
    forall k | 0 <= k < |compact|
      ensures CleanLine(compact[k])
    {
      assert compact[k] in compact;
      if compact[k] != "" {
        var m :| 0 <= m < |stripped| && stripped[m] == compact[k];
      }
    }
    CompactedNoThreeEmpty(stripped);
  }

  /** What `html_to_markdown` returns: a text with no whitespace at either
      end followed by one line feed, no line ending in whitespace, and
      never three empty lines in a row. */
  lemma ConvertShape(body: seq<BodyNode>, p: Reparse)
    ensures OutputShape(Convert(body, p))
  {
    var lines := Text.SplitLines(Assembled(Parts(body, p)));
    CompactedClean(lines);
    FinishSpec(Compacted(RStripAll(lines)));
  }
}
