/** The line-level Markdown recognisers shared by the chunkers: ATX
    headings and the heading context, pipe tables and their text
    rendering, list blocks, and the paragraph that precedes a list.
    The regular expressions of the Python code are written out as
    character scanners; `\s` is `Text.IsSpace` and `\d` an ASCII digit.
    Lines never contain a line feed. */
module Markdown {
  import opened Wrappers
  import Text

  // ---------------------------------------------------------------- headings

  function LeadingHashes(line: string): (n: nat)
    ensures n <= |line|
  {
    if line != [] && line[0] == '#' then 1 + LeadingHashes(line[1..]) else 0
  }

  /** `^(#{1,6})\s+(.+?)\s*$`: one to six `#` (and no seventh), at least
      one whitespace character, then at least one more character. */
  predicate IsHeading(line: string) {
    var n := LeadingHashes(line);
    1 <= n <= 6 && n + 2 <= |line| && Text.IsSpace(line[n])
  }

  /** `len(m.group("hashes"))` */
  function HeadingLevel(line: string): (level: nat)
    requires IsHeading(line)
    ensures 1 <= level <= 6
  {
    LeadingHashes(line)
  }

  /** `m.group("title").strip()`: the lazy title group lies between the
      whitespace after the hashes and the trailing whitespace, so once
      stripped it is the stripped rest of the line. */
  function HeadingTitle(line: string): string
    requires IsHeading(line)
  {
    Text.Strip(line[LeadingHashes(line)..])
  }

  /** The active heading context: level to title. */
  type Context = map<nat, string>

  predicate ValidContext(ctx: Context) {
    forall l :: l in ctx ==> 1 <= l <= 6
  }

  /** `headings[level] = title` followed by deleting every deeper level. */
  function UpdateContext(ctx: Context, level: nat, title: string): (r: Context)
    ensures level in r && r[level] == title
    ensures forall l :: l < level ==> (l in r <==> l in ctx) && (l in ctx ==> r[l] == ctx[l])
    ensures forall l :: l in r ==> l <= level
    ensures ValidContext(ctx) && 1 <= level <= 6 ==> ValidContext(r)
  {
    map l | l in ctx.Keys + {level} && l <= level :: if l == level then title else ctx[l]
  }

  /** The levels present in the context from `from` up to 6, ascending:
      `sorted(headings.keys())` for a valid context. */
  function Levels(ctx: Context, from: nat): seq<nat>
    decreases 7 - from
  {
    if from > 6 then []
    else (if from in ctx then [from] else []) + Levels(ctx, from + 1)
  }

  /** Exactly the context's levels from `from` on, strictly ascending. */
  lemma {:induction false} LevelsSpec(ctx: Context, from: nat)
    ensures var ls := Levels(ctx, from);
      && (forall i :: 0 <= i < |ls| ==> from <= ls[i] <= 6)
      && (forall i, j :: 0 <= i < j < |ls| ==> ls[i] < ls[j])
      && (forall l :: l in ls <==> from <= l <= 6 && l in ctx)
    decreases 7 - from
  {
    if from <= 6 {
      LevelsSpec(ctx, from + 1);
      var rest := Levels(ctx, from + 1);
      if from in ctx {
        var ls := [from] + rest;
        assert Levels(ctx, from) == ls;
        forall i | 0 < i < |ls| ensures ls[i] == rest[i - 1] && from < ls[i] <= 6 {
        }
        forall l | l in ls ensures l == from || l in rest {
          var i :| 0 <= i < |ls| && ls[i] == l;
          if i > 0 {
            assert rest[i - 1] == l;
          }
        }
      }
    }
  }

  /** `current_headings_meta()`: `h<level>` to title, by ascending level. */
  function HeadingsMeta(ctx: Context): (meta: seq<(string, string)>)
    ensures |meta| == |Levels(ctx, 1)|
  {
    var ls := Levels(ctx, 1);
    LevelsSpec(ctx, 1);
    MetaEntries(ctx, ls)
  }

  /** The `h<level>` entries of the levels `ls`, in order. */
  function MetaEntries(ctx: Context, ls: seq<nat>): (meta: seq<(string, string)>)
    requires forall l :: l in ls ==> l in ctx
    ensures |meta| == |ls|
  {
    if ls == [] then [] else MetaEntries(ctx, ls[..|ls| - 1]) + [("h" + Text.NatToString(ls[|ls| - 1]), ctx[ls[|ls| - 1]])]
  }

  /** The deepest level of a context is the last of its levels. */
  lemma {:induction false} LevelsLast(ctx: Context, level: nat, from: nat)
    requires from <= level <= 6 && level in ctx
    requires forall l :: l in ctx ==> l <= level
    ensures var ls := Levels(ctx, from);
      ls != [] && ls[|ls| - 1] == level
    decreases 7 - from
  {
    var rest := Levels(ctx, from + 1);
    var head := if from in ctx then [from] else [];
    assert Levels(ctx, from) == head + rest;
    if from < level {
      LevelsLast(ctx, level, from + 1);
      assert (head + rest)[|head + rest| - 1] == rest[|rest| - 1];
    } else {
      LevelsNone(ctx, from + 1);
      assert head + rest == [level];
    }
  }

  lemma {:induction false} LevelsNone(ctx: Context, from: nat)
    requires forall l :: l in ctx ==> l < from
    ensures Levels(ctx, from) == []
    decreases 7 - from
  {
    if from <= 6 {
      LevelsNone(ctx, from + 1);
    }
  }

  /** A context whose deepest level holds `title` has metadata ending
      with that level's entry. */
  lemma {:induction false} HeadingsMetaLast(ctx: Context, level: nat, title: string)
    requires 1 <= level <= 6 && level in ctx && ctx[level] == title
    requires forall l :: l in ctx ==> l <= level
    ensures var meta := HeadingsMeta(ctx);
      meta != [] && meta[|meta| - 1] == ("h" + Text.NatToString(level), title)
  {
    LevelsLast(ctx, level, 1);
  }

  // ---------------------------------------------------------------- tables

  /** `re.match(r"^\s*\|?\s*:?-{3,}:?\s*(\|\s*:?-{3,}:?\s*)+\|?\s*$", line)`:
      after stripping and dropping one outer `|` on each side, at least two
      `|`-separated cells, each an optional `:`, three or more `-` and an
      optional `:` between whitespace. */
  predicate IsTableSeparator(line: string) {
    var cells := Text.SplitOn(DropOuterPipes(Text.Strip(line)), '|');
    |cells| >= 2 && AllSeparatorCells(cells)
  }

  predicate AllSeparatorCells(cells: seq<string>) {
    cells == [] || (IsSeparatorCell(cells[0]) && AllSeparatorCells(cells[1..]))
  }

  function DropOuterPipes(t: string): string {
    var a := if |t| > 0 && t[0] == '|' then t[1..] else t;
    if |a| > 0 && a[|a| - 1] == '|' then a[..|a| - 1] else a
  }

  predicate IsSeparatorCell(cell: string) {
    var s := Text.Strip(cell);
    var a := if |s| > 0 && s[0] == ':' then s[1..] else s;
    var b := if |a| > 0 && a[|a| - 1] == ':' then a[..|a| - 1] else a;
    |b| >= 3 && AllDashes(b)
  }

  predicate AllDashes(b: string) {
    b == [] || (b[0] == '-' && AllDashes(b[1..]))
  }

  /** `split_row`: strip, strip every outer `|`, split at `|`, strip each cell. */
  function SplitRow(row: string): seq<string> {
    StripEach(Text.SplitOn(Text.StripChars(Text.Strip(row), {'|'}), '|'))
  }

  function StripEach(parts: seq<string>): (r: seq<string>)
    ensures |r| == |parts|
  {
    seq(|parts|, k requires 0 <= k < |parts| => Text.Strip(parts[k]))
  }

  /** The key of a column: its header, or `col<n>` (1-based) past the headers. */
  function ColumnKey(headers: seq<string>, col: nat): string {
    if col < |headers| then headers[col] else "col" + Text.NatToString(col + 1)
  }

  /** The `key: value` text of one cell. */
  function Cell(headers: seq<string>, row: seq<string>, col: nat): string
    requires col < |row|
  {
    ColumnKey(headers, col) + ": " + row[col]
  }

  /** The `key: value` cells of the first `n` columns of a row, empty values
      skipped. */
  function RowCells(headers: seq<string>, row: seq<string>, n: nat): seq<string>
    requires n <= |row|
  {
    if n == 0 then []
    else RowCells(headers, row, n - 1)
         + (if row[n - 1] != "" then [Cell(headers, row, n - 1)] else [])
  }

  /** The columns of the first `n` holding a non-empty value, ascending. */
  function NonEmptyColumns(row: seq<string>, n: nat): (cols: seq<nat>)
    requires n <= |row|
    ensures forall i :: 0 <= i < |cols| ==> cols[i] < n
  {
    if n == 0 then []
    else NonEmptyColumns(row, n - 1) + (if row[n - 1] != "" then [n - 1] else [])
  }

  /** The columns come out in ascending order. */
  lemma {:induction false} NonEmptyColumnsAscending(row: seq<string>, n: nat)
    requires n <= |row|
    ensures var cols := NonEmptyColumns(row, n);
      forall i, j :: 0 <= i < j < |cols| ==> cols[i] < cols[j]
  {
    if n > 0 {
      NonEmptyColumnsAscending(row, n - 1);
      var cols, cols' := NonEmptyColumns(row, n - 1), NonEmptyColumns(row, n);
      forall i, j | 0 <= i < j < |cols'| ensures cols'[i] < cols'[j] {
        assert cols' == cols + (if row[n - 1] != "" then [n - 1] else []);
        if j < |cols| {
          assert NonEmptyColumns(row, n - 1)[i] < NonEmptyColumns(row, n - 1)[j];
        }
      }
    }
  }

  /** Exactly the columns below `n` with a non-empty value are listed. */
  lemma {:induction false} NonEmptyColumnsMembers(row: seq<string>, n: nat)
    requires n <= |row|
    ensures var cols := NonEmptyColumns(row, n);
      forall c :: c in cols <==> 0 <= c < n && row[c] != ""
  {
    if n > 0 {
      NonEmptyColumnsMembers(row, n - 1);
      var cols, cols' := NonEmptyColumns(row, n - 1), NonEmptyColumns(row, n);
      forall c ensures c in cols' <==> c in cols || (c == n - 1 && row[c] != "") {
      }
    }
  }

  /** A row renders one `key: value` cell per non-empty value, in column
      order, keyed by header or `col<n>`. */
  lemma {:induction false} RowCellsSpec(headers: seq<string>, row: seq<string>, n: nat)
    requires n <= |row|
    ensures var cols := NonEmptyColumns(row, n);
      var cells := RowCells(headers, row, n);
      |cells| == |cols|
      && forall k :: 0 <= k < |cols| ==> cols[k] < |row| && cells[k] == Cell(headers, row, cols[k])
  {
    if n > 0 {
      RowCellsSpec(headers, row, n - 1);
      RowCellsStep(headers, row, n);
      var cols, cells := NonEmptyColumns(row, n - 1), RowCells(headers, row, n - 1);
      var cols', cells' := NonEmptyColumns(row, n), RowCells(headers, row, n);
      if row[n - 1] != "" {
        forall k | 0 <= k < |cols'| ensures cols'[k] < |row| && cells'[k] == Cell(headers, row, cols'[k]) {
          if k < |cols| {
            assert cols'[k] == cols[k] && cells'[k] == cells[k];
          }
        }
      }
    }
  }

  /** One more column: one more cell exactly when its value is non-empty. */
  lemma {:induction false} RowCellsStep(headers: seq<string>, row: seq<string>, n: nat)
    requires 0 < n <= |row|
    ensures row[n - 1] != "" ==>
      && NonEmptyColumns(row, n) == NonEmptyColumns(row, n - 1) + [n - 1]
      && RowCells(headers, row, n) == RowCells(headers, row, n - 1) + [Cell(headers, row, n - 1)]
    ensures row[n - 1] == "" ==>
      && NonEmptyColumns(row, n) == NonEmptyColumns(row, n - 1)
      && RowCells(headers, row, n) == RowCells(headers, row, n - 1)
  {
  }

  /** The rendered rows of a table body: each row with at least one cell,
      its cells joined by `"; "`. */
  function RenderedRows(headers: seq<string>, rows: seq<seq<string>>): seq<string> {
    if rows == [] then []
    else
      var cells := RowCells(headers, rows[|rows| - 1], |rows[|rows| - 1]|);
      RenderedRows(headers, rows[..|rows| - 1]) + (if cells != [] then [Text.Join("; ", cells)] else [])
  }

  /** The table text: the rendered rows, or the headers joined by `" | "`
      when no row has a cell. */
  function TableText(headers: seq<string>, rows: seq<seq<string>>): (text: string)
    ensures |text| >= 7
  {
    var rendered := RenderedRows(headers, rows);
    "TABLE:\n" + Text.Join("\n", if rendered == [] then [Text.Join(" | ", headers)] else rendered)
  }

  /** Every rendered table starts with its `TABLE:` line. */
  lemma {:induction false} TableTextPrefix(headers: seq<string>, rows: seq<seq<string>>)
    ensures TableText(headers, rows)[..7] == "TABLE:\n"
  {
  }

  function SplitRows(lines: seq<string>): (rows: seq<seq<string>>)
    ensures |rows| == |lines| && forall k :: 0 <= k < |lines| ==> rows[k] == SplitRow(lines[k])
  {
    seq(|lines|, k requires 0 <= k < |lines| => SplitRow(lines[k]))
  }

  /** The cells of one row (the inner loop of `parse_table_block`). */
  method RenderRowCells(headers: seq<string>, row: seq<string>) returns (cells: seq<string>)
    ensures cells == RowCells(headers, row, |row|)
  {
    cells := [];
    var col := 0;
    while col < |row|
      invariant 0 <= col <= |row|
      invariant cells == RowCells(headers, row, col)
    {
      if row[col] != "" {
        cells := cells + [Cell(headers, row, col)];
      }
      col := col + 1;
    }
  }

  /** The rendering part of `parse_table_block`. */
  method RenderTable(headers: seq<string>, rows: seq<seq<string>>) returns (text: string)
    ensures text == TableText(headers, rows)
  {
    var rendered: seq<string> := [];
    var r := 0;
    while r < |rows|
      invariant 0 <= r <= |rows|
      invariant rendered == RenderedRows(headers, rows[..r])
    {
      var cells := RenderRowCells(headers, rows[r]);
      assert rows[..r + 1][..r] == rows[..r];
      if cells != [] {
        rendered := rendered + [Text.Join("; ", cells)];
      }
      r := r + 1;
    }
    assert rows[..r] == rows;
    if rendered == [] {
      rendered := [Text.Join(" | ", headers)];
    }
    text := "TABLE:\n" + Text.Join("\n", rendered);
  }

  /** A header line holding `|` followed by a separator line. */
  predicate StartsTable(lines: seq<string>, start: nat) {
    start + 1 < |lines| && '|' in lines[start] && IsTableSeparator(lines[start + 1])
  }

  /** Where the body rows of a table that has reached line `i` end: the
      first line without `|`. */
  function TableEnd(lines: seq<string>, i: nat): (e: nat)
    requires i <= |lines|
    ensures i <= e <= |lines|
    decreases |lines| - i
  {
    if i < |lines| && '|' in lines[i] then TableEnd(lines, i + 1) else i
  }

  /** The rows taken all hold `|`, the line after them does not. */
  lemma {:induction false} TableEndSpec(lines: seq<string>, i: nat)
    requires i <= |lines|
    ensures var e := TableEnd(lines, i);
      && (forall k :: i <= k < e ==> '|' in lines[k])
      && (e == |lines| || '|' !in lines[e])
    decreases |lines| - i
  {
    if i < |lines| && '|' in lines[i] {
      TableEndSpec(lines, i + 1);
    }
  }

  /** The row-collecting loop of `parse_table_block`: every line from
      `from` on that holds `|`. */
  method CollectTableRows(lines: seq<string>, from: nat) returns (body: seq<string>, next: nat)
    requires from <= |lines|
    ensures next == TableEnd(lines, from) && body == lines[from..next]
  {
    body := [];
    next := from;
    while next < |lines| && '|' in lines[next]
      invariant from <= next <= |lines|
      invariant body == lines[from..next]
      invariant TableEnd(lines, next) == TableEnd(lines, from)
    {
      assert lines[from..next + 1] == lines[from..next] + [lines[next]];
      body := body + [lines[next]];
      next := next + 1;
    }
  }

  /** `parse_table_block(lines, start)`: a header row holding `|`, a
      separator row, then every following row that holds `|`. */
  method ParseTableBlock(lines: seq<string>, start: nat) returns (text: string, next: nat)
    ensures text == "" <==> !StartsTable(lines, start)
    ensures text == "" ==> next == start
    ensures text != "" ==>
      && start + 2 <= next == TableEnd(lines, start + 2)
      && text == TableText(SplitRow(lines[start]), SplitRows(lines[start + 2..next]))
  {
    if start >= |lines| {
      return "", start;
    }
    var headerLine := lines[start];
    if '|' !in headerLine {
      return "", start;
    }
    if start + 1 >= |lines| {
      return "", start;
    }
    if !IsTableSeparator(lines[start + 1]) {
      return "", start;
    }
    var bodyLines;
    bodyLines, next := CollectTableRows(lines, start + 2);
    text := RenderTable(SplitRow(headerLine), SplitRows(bodyLines));
    assert text != "";
  }

  // ---------------------------------------------------------------- lists

  /** Length of the leading whitespace run. */
  function LeadingSpace(line: string): (n: nat)
    ensures n <= |line|
  {
    if line != [] && Text.IsSpace(line[0]) then 1 + LeadingSpace(line[1..]) else 0
  }

  function DigitRun(s: string): (n: nat)
    ensures n <= |s|
  {
    if s != [] && Text.IsDigit(s[0]) then 1 + DigitRun(s[1..]) else 0
  }

  /** `^\s*(?:[-*+]\s+|\d+[.)]\s+)`: after the leading whitespace, a
      bullet or a number with `.` or `)`, followed by whitespace. */
  predicate IsListItemStart(line: string) {
    if line != [] && Text.IsSpace(line[0]) then IsListItemStart(line[1..]) else IsListMarker(line)
  }

  /** `(?:[-*+]\s+|\d+[.)]\s+)` at the very start of `rest`. */
  predicate IsListMarker(rest: string) {
    var d := DigitRun(rest);
    (|rest| >= 2 && (rest[0] == '-' || rest[0] == '*' || rest[0] == '+') && Text.IsSpace(rest[1]))
    || (d >= 1 && d + 1 < |rest| && (rest[d] == '.' || rest[d] == ')') && Text.IsSpace(rest[d + 1]))
  }

  /** `^\s{2,}\S` or a leading tab. */
  predicate IsIndentedContinuation(line: string) {
    (2 <= LeadingSpace(line) < |line|) || (|line| > 0 && line[0] == '\t')
  }

  predicate IsListLine(line: string) {
    IsListItemStart(line) || IsIndentedContinuation(line)
  }

  /** A blank line that `_parse_list_block` keeps: the line after it
      continues the list. */
  predicate IsBridgingBlank(lines: seq<string>, k: nat)
    requires k < |lines|
  {
    Text.IsBlank(lines[k]) && k + 1 < |lines| && IsListLine(lines[k + 1])
  }

  lemma {:induction false} ListItemStartNotEmpty(line: string)
    requires IsListItemStart(line)
    ensures line != ""
  {
    if line != [] && Text.IsSpace(line[0]) {
      ListItemStartNotEmpty(line[1..]);
    }
  }

  /** Where a list block that has reached line `i` ends: list lines and
      blank lines followed by a list line are taken, anything else stops. */
  function ListEnd(lines: seq<string>, i: nat): (e: nat)
    requires i <= |lines|
    ensures i <= e <= |lines|
    decreases |lines| - i
  {
    if i < |lines| && (IsListLine(lines[i]) || IsBridgingBlank(lines, i)) then ListEnd(lines, i + 1) else i
  }

  /** Every line the block takes is a list line or a blank line with the
      list going on after it, and the line after the block is neither. */
  lemma {:induction false} ListEndSpec(lines: seq<string>, i: nat)
    requires i <= |lines|
    ensures var e := ListEnd(lines, i);
      && (forall k :: i <= k < e ==> IsListLine(lines[k]) || (IsBridgingBlank(lines, k) && k + 1 < e))
      && (e == |lines| || !(IsListLine(lines[e]) || IsBridgingBlank(lines, e)))
    decreases |lines| - i
  {
    if i < |lines| && (IsListLine(lines[i]) || IsBridgingBlank(lines, i)) {
      ListEndSpec(lines, i + 1);
      if IsBridgingBlank(lines, i) {
        assert ListEnd(lines, i + 1) == ListEnd(lines, i + 2);
      }
    }
  }

  /** `_parse_list_block(lines, start)` */
  method ParseListBlock(lines: seq<string>, start: nat) returns (text: string, next: nat)
    ensures text == "" <==> !(start < |lines| && IsListItemStart(lines[start]))
    ensures text == "" ==> next == start
    ensures text != "" ==>
      && start < next <= |lines|
      && next == ListEnd(lines, start)
      && text == Text.Join("\n", lines[start..next])
  {
    if start >= |lines| || !IsListItemStart(lines[start]) {
      return "", start;
    }
    var collected;
    collected, next := CollectListLines(lines, start);
    ListItemStartNotEmpty(lines[start]);
    assert collected[0] == lines[start];
    Text.JoinNonEmpty("\n", collected);
    text := Text.Join("\n", collected);
  }

  /** The line-collecting loop of `_parse_list_block`: list lines, and
      blank lines followed by a list line. */
  method CollectListLines(lines: seq<string>, start: nat) returns (collected: seq<string>, next: nat)
    requires start < |lines| && IsListLine(lines[start])
    ensures start < next == ListEnd(lines, start) && collected == lines[start..next]
  {
    var i := start;
    collected := [];
    while i < |lines|
      invariant start <= i <= |lines|
      invariant collected == lines[start..i]
      invariant ListEnd(lines, i) == ListEnd(lines, start)
      invariant i == start ==> IsListLine(lines[i])
    {
      var ln := lines[i];
      var bridging := Text.IsBlank(ln) && i + 1 < |lines| && IsListLine(lines[i + 1]);
      if !IsListLine(ln) && !bridging {
        break;
      }
      assert lines[start..i + 1] == lines[start..i] + [ln];
      collected := collected + [ln];
      i := i + 1;
    }
    next := i;
  }


  // ---------------------------------------------------------------- previous paragraph

  /** The last non-blank line before index `k`, if any. */
  function LastNonBlankBefore(lines: seq<string>, k: nat): (r: Option<nat>)
    requires k <= |lines|
    ensures r.None? ==> forall m :: 0 <= m < k ==> Text.IsBlank(lines[m])
    ensures r.Some? ==> r.value < k && !Text.IsBlank(lines[r.value])
                        && forall m :: r.value < m < k ==> Text.IsBlank(lines[m])
  {
    if k == 0 then None
    else if !Text.IsBlank(lines[k - 1]) then Some(k - 1)
    else LastNonBlankBefore(lines, k - 1)
  }

  /** The first line of the run of non-blank lines that ends at `j`. */
  function ParagraphStart(lines: seq<string>, j: nat): (s: nat)
    requires j < |lines| && !Text.IsBlank(lines[j])
    ensures s <= j
    ensures forall m :: s <= m <= j ==> !Text.IsBlank(lines[m])
    ensures s == 0 || Text.IsBlank(lines[s - 1])
  {
    if j == 0 || Text.IsBlank(lines[j - 1]) then j else ParagraphStart(lines, j - 1)
  }

  /** The first loop of `_collect_previous_paragraph`: walks back over
      blank lines, counting them. */
  method SkipBlankLinesBack(lines: seq<string>, listStart: nat) returns (last: Option<nat>, gap: nat)
    requires listStart <= |lines|
    ensures last == LastNonBlankBefore(lines, listStart)
    ensures last.Some? ==> gap == listStart - 1 - last.value
  {
    var j: int := listStart - 1;
    gap := 0;
    while j >= 0 && Text.IsBlank(lines[j])
      invariant -1 <= j < listStart
      invariant gap == listStart - 1 - j
      invariant forall m :: j < m < listStart ==> Text.IsBlank(lines[m])
    {
      gap := gap + 1;
      j := j - 1;
    }
    if j < 0 {
      LastNonBlankNone(lines, listStart);
      last := None;
    } else {
      LastNonBlankIs(lines, listStart, j);
      last := Some(j);
    }
  }

  /** The second loop of `_collect_previous_paragraph`: walks back from the
      paragraph's last line to its first. */
  method FindParagraphStart(lines: seq<string>, paraEnd: nat) returns (first: nat)
    requires paraEnd < |lines| && !Text.IsBlank(lines[paraEnd])
    ensures first == ParagraphStart(lines, paraEnd)
  {
    var k: int := paraEnd - 1;
    while k >= 0 && !Text.IsBlank(lines[k])
      invariant -1 <= k < paraEnd
      invariant !Text.IsBlank(lines[k + 1])
      invariant ParagraphStart(lines, paraEnd) == ParagraphStart(lines, k + 1)
    {
      k := k - 1;
    }
    first := k + 1;
  }

  /** What `_collect_previous_paragraph(lines, listStart)` returns: the
      paragraph right before a list, with the number of blank lines
      between them, unless the last non-blank line before the list is a
      heading or a list item. */
  function PreviousParagraph(lines: seq<string>, listStart: nat): (Option<seq<string>>, nat)
    requires listStart <= |lines|
  {
    match LastNonBlankBefore(lines, listStart)
    case None => (None, 0)
    case Some(j) =>
      if IsHeading(lines[j]) || IsListItemStart(lines[j]) then (None, 0)
      else (Some(lines[ParagraphStart(lines, j)..j + 1]), listStart - 1 - j)
  }

  /** A paragraph found before a list is a maximal run of non-blank lines,
      not ending in a heading or a list item, separated from the list by
      exactly `gap` blank lines; none is found when every line before the
      list is blank or the last non-blank one is a heading or a list item. */
  lemma {:induction false} PreviousParagraphSpec(lines: seq<string>, listStart: nat)
    requires listStart <= |lines|
    ensures var (para, gap) := PreviousParagraph(lines, listStart);
      && (para.Some? ==>
            var p := para.value;
            var s := listStart - gap - |p|;
            && p != [] && 0 <= s
            && p == lines[s..s + |p|]
            && (forall m :: s <= m < s + |p| ==> !Text.IsBlank(lines[m]))
            && (s == 0 || Text.IsBlank(lines[s - 1]))
            && (forall m :: s + |p| <= m < listStart ==> Text.IsBlank(lines[m]))
            && !IsHeading(lines[s + |p| - 1]) && !IsListItemStart(lines[s + |p| - 1]))
      && (para.None? ==>
            && gap == 0
            && ((forall m :: 0 <= m < listStart ==> Text.IsBlank(lines[m]))
                || (exists j :: 0 <= j < listStart && !Text.IsBlank(lines[j])
                      && (forall m :: j < m < listStart ==> Text.IsBlank(lines[m]))
                      && (IsHeading(lines[j]) || IsListItemStart(lines[j])))))
  {
    match LastNonBlankBefore(lines, listStart)
    case None =>
    case Some(j) =>
      if !(IsHeading(lines[j]) || IsListItemStart(lines[j])) {
        ParagraphFound(lines, listStart, j);
        var s := ParagraphStart(lines, j);
        assert listStart - (listStart - 1 - j) - (j + 1 - s) == s;
      }
  }

  /** The paragraph found when the last non-blank line `j` before the list
      is neither a heading nor a list item. */
  lemma {:induction false} ParagraphFound(lines: seq<string>, listStart: nat, j: nat)
    requires listStart <= |lines| && LastNonBlankBefore(lines, listStart) == Some(j)
    requires !IsHeading(lines[j]) && !IsListItemStart(lines[j])
    ensures var s := ParagraphStart(lines, j);
      && s <= j < listStart
      && PreviousParagraph(lines, listStart) == (Some(lines[s..j + 1]), listStart - 1 - j)
      && (forall m :: s <= m <= j ==> !Text.IsBlank(lines[m]))
      && (s == 0 || Text.IsBlank(lines[s - 1]))
      && (forall m :: j < m < listStart ==> Text.IsBlank(lines[m]))
  {
  }

  /** `_collect_previous_paragraph(lines, listStart)` */
  method CollectPreviousParagraph(lines: seq<string>, listStart: nat) returns (para: Option<seq<string>>, gap: nat)
    requires listStart <= |lines|
    ensures (para, gap) == PreviousParagraph(lines, listStart)
  {
    var last;
    last, gap := SkipBlankLinesBack(lines, listStart);
    if last.None? {
      return None, 0;
    }
    var j := last.value;
    if IsHeading(lines[j]) || IsListItemStart(lines[j]) {
      return None, 0;
    }
    var first := FindParagraphStart(lines, j);
    para := Some(lines[first..j + 1]);
  }

  lemma {:induction false} LastNonBlankNone(lines: seq<string>, k: nat)
    requires k <= |lines|
    requires forall m :: 0 <= m < k ==> Text.IsBlank(lines[m])
    ensures LastNonBlankBefore(lines, k) == None
  {
    if k > 0 {
      LastNonBlankNone(lines, k - 1);
    }
  }

  lemma {:induction false} LastNonBlankIs(lines: seq<string>, k: nat, j: nat)
    requires j < k <= |lines|
    requires !Text.IsBlank(lines[j]) && forall m :: j < m < k ==> Text.IsBlank(lines[m])
    ensures LastNonBlankBefore(lines, k) == Some(j)
  {
    if k - 1 != j {
      LastNonBlankIs(lines, k - 1, j);
    }
  }
}
