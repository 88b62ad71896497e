/** The simple Markdown chunker: the same walk as the advanced chunker
    without list blocks, and a packing step that works on the lines of the
    stripped, joined buffer rather than on whole blocks, so a rendered
    table's rows may land in different chunks. The packing loop as written
    keeps the running estimate of the flushed group after a flush;
    `EmitBufferAsWritten` models that loop and `EmitBuffer` the corrected
    one that the walk uses. */
module SimpleChunker {
  import Text
  import Markdown
  import AdvancedChunker

  type Chunk = AdvancedChunker.Chunk
  type Section = AdvancedChunker.Section

  // ---------------------------------------------------------------- packing as written

  /** The packing loop as written, after a prefix of the lines: on a flush
      the open group closes, but the estimate becomes the one that
      overflowed (`approx = new_approx`), not the new line's own. */
  function PackAsWritten(ls: seq<string>, budget: int): AdvancedChunker.PackState {
    if ls == [] then AdvancedChunker.PackState([], [], 0)
    else
      var st := PackAsWritten(ls[..|ls| - 1], budget);
      var ln := ls[|ls| - 1];
      var newApprox := st.approx + Text.EstimateTokens(ln);
      if st.open != [] && newApprox > budget then AdvancedChunker.PackState(st.closed + [st.open], [ln], newApprox)
      else AdvancedChunker.PackState(st.closed, st.open + [ln], newApprox)
  }

  function GroupsAsWritten(ls: seq<string>, budget: int): seq<seq<string>> {
    var st := PackAsWritten(ls, budget);
    if st.open == [] then st.closed else st.closed + [st.open]
  }

  /** Once a group has been flushed the running estimate stays over the
      budget, so the open group is always a single line. */
  ghost predicate AsWrittenInv(ls: seq<string>, st: AdvancedChunker.PackState, budget: int) {
    && AdvancedChunker.Concat(st.closed) + st.open == ls
    && (ls == [] <==> st.open == [])
    && (st.closed != [] ==> st.approx > budget && |st.open| == 1)
    && (forall k :: 1 <= k < |st.closed| ==> |st.closed[k]| == 1)
  }

  lemma {:induction false} PackAsWrittenInvariant(ls: seq<string>, budget: int)
    ensures AsWrittenInv(ls, PackAsWritten(ls, budget), budget)
  {
    if ls != [] {
      var init := ls[..|ls| - 1];
      var ln := ls[|ls| - 1];
      assert ls == init + [ln];
      PackAsWrittenInvariant(init, budget);
      var st := PackAsWritten(init, budget);
      if st.open != [] && st.approx + Text.EstimateTokens(ln) > budget {
        AsWrittenFlush(init, ln, st, budget);
      } else {
        AsWrittenExtend(init, ln, st, budget);
      }
    }
  }

  /** A flush closes the open group, which may hold several lines only
      while nothing has been closed yet. */
  lemma {:induction false} AsWrittenFlush(init: seq<string>, ln: string, st: AdvancedChunker.PackState, budget: int)
    requires AsWrittenInv(init, st, budget)
    requires st.open != [] && st.approx + Text.EstimateTokens(ln) > budget
    ensures AsWrittenInv(init + [ln], AdvancedChunker.PackState(st.closed + [st.open], [ln], st.approx + Text.EstimateTokens(ln)), budget)
  {
    var closed := st.closed + [st.open];
    AdvancedChunker.ConcatSnoc(st.closed, st.open);
    forall k | 1 <= k < |closed| ensures |closed[k]| == 1 {
      if k < |st.closed| {
        assert closed[k] == st.closed[k];
      }
    }
  }

  /** Without a flush nothing has been closed yet: once something has, the
      estimate is over the budget and the open group is not empty. */
  lemma {:induction false} AsWrittenExtend(init: seq<string>, ln: string, st: AdvancedChunker.PackState, budget: int)
    requires AsWrittenInv(init, st, budget)
    requires !(st.open != [] && st.approx + Text.EstimateTokens(ln) > budget)
    ensures AsWrittenInv(init + [ln], AdvancedChunker.PackState(st.closed, st.open + [ln], st.approx + Text.EstimateTokens(ln)), budget)
  {
    assert st.closed == [];
  }

  /** The effect of the bug: every line after the first flushed group is
      a chunk on its own, whatever the budget. */
  lemma {:induction false} GroupsAsWrittenSingletons(ls: seq<string>, budget: int)
    ensures var gs := GroupsAsWritten(ls, budget);
      && AdvancedChunker.Concat(gs) == ls
      && forall k :: 1 <= k < |gs| ==> |gs[k]| == 1
  {
    PackAsWrittenInvariant(ls, budget);
    var st := PackAsWritten(ls, budget);
    if st.open != [] {
      AdvancedChunker.ConcatSnoc(st.closed, st.open);
      var gs := st.closed + [st.open];
      forall k | 1 <= k < |gs| ensures |gs[k]| == 1 {
        if k < |st.closed| {
          assert gs[k] == st.closed[k];
        }
      }
    }
  }

  /** The word counts of the lines of the example below. */
  lemma {:induction false} ExampleTokens()
    ensures Text.EstimateTokens("a b") == 2 && Text.EstimateTokens("c") == 1 && Text.EstimateTokens("d") == 1
  {
    assert Text.IsSpace(' ') && !Text.IsSpace('a') && !Text.IsSpace('b');
    assert "a b"[1..] == " b" && " b"[1..] == "b" && "b"[1..] == "";
    assert Text.WordStarts("b", true) == 1;
    assert Text.WordStarts(" b", false) == 1;
    assert Text.WordStarts("a b", true) == 2;
    assert "c"[1..] == "" && "d"[1..] == "";
  }

  /** Three lines of two, one and one words under a budget of two words:
      as written the last two lines become two chunks although together
      they fit, which breaks the greedy rule the corrected packing keeps. */
  lemma {:induction false} AsWrittenSplitsFittingLines()
    ensures GroupsAsWritten(["a b", "c", "d"], 2) == [["a b"], ["c"], ["d"]]
    ensures !AdvancedChunker.GreedyGroups(GroupsAsWritten(["a b", "c", "d"], 2), 2)
  {
    var ls := ["a b", "c", "d"];
    ExampleTokens();
    assert ls[..2] == ["a b", "c"] && ls[..2][..1] == ["a b"] && ["a b"][..0] == [];
    assert PackAsWritten(["a b"], 2) == AdvancedChunker.PackState([], ["a b"], 2);
    assert PackAsWritten(ls[..2], 2) == AdvancedChunker.PackState([["a b"]], ["c"], 3);
    assert PackAsWritten(ls, 2) == AdvancedChunker.PackState([["a b"], ["c"]], ["d"], 4);
    var gs := GroupsAsWritten(ls, 2);
    assert Text.SumTokens(gs[1]) + Text.EstimateTokens(gs[2][0]) == 2 by {
      assert Text.SumTokens(["c"]) == 1 by { assert ["c"][1..] == []; }
    }
  }

  /** The corrected packing puts the last two lines of the same example
      into one chunk. */
  lemma {:induction false} CorrectedKeepsFittingLines()
    ensures AdvancedChunker.Groups(["a b", "c", "d"], 2) == [["a b"], ["c", "d"]]
  {
    var ls := ["a b", "c", "d"];
    ExampleTokens();
    assert ls[..2] == ["a b", "c"] && ls[..2][..1] == ["a b"] && ["a b"][..0] == [];
    assert AdvancedChunker.PackPrefix(["a b"], 2) == AdvancedChunker.PackState([], ["a b"], 2);
    assert AdvancedChunker.PackPrefix(ls[..2], 2) == AdvancedChunker.PackState([["a b"]], ["c"], 1);
    assert AdvancedChunker.PackPrefix(ls, 2) == AdvancedChunker.PackState([["a b"]], ["c", "d"], 2);
  }

  /** `emit_buffer_as_chunks` with the packing loop as written. */
  method EmitBufferAsWritten(buffer: seq<string>, budget: int, finalize: AdvancedChunker.Finalizer, chunks: seq<Chunk>)
    returns (out: seq<Chunk>)
    ensures out == AdvancedChunker.AppendChunks(chunks, GroupsAsWritten(BufferLines(buffer), budget), finalize)
  {
    out := chunks;
    if buffer == [] {
      return;
    }
    var text := Text.Strip(Text.Join("\n", buffer));
    if text == "" {
      return;
    }
    out := PackLinesAsWritten(Text.SplitLines(text), budget, finalize, chunks);
  }

  /** The packing loop as written over the lines of the stripped text,
      with the final flush. */
  method PackLinesAsWritten(ls: seq<string>, budget: int, finalize: AdvancedChunker.Finalizer, chunks: seq<Chunk>)
    returns (out: seq<Chunk>)
    ensures out == AdvancedChunker.AppendChunks(chunks, GroupsAsWritten(ls, budget), finalize)
  {
    out := chunks;
    var outLines: seq<string> := [];
    var approx: nat := 0;
    ghost var closed: seq<seq<string>> := [];
    var i := 0;
    while i < |ls|
      invariant PackedAsWritten(ls, i, budget, finalize, chunks, closed, outLines, approx, out)
      decreases |ls| - i
    {
      out, outLines, approx, closed := PackLineAsWritten(ls, i, budget, finalize, chunks, out, outLines, approx, closed);
      i := i + 1;
    }
    assert ls[..i] == ls;
    if outLines != [] {
      AdvancedChunker.AppendChunksSnoc(chunks, closed, outLines, finalize);
      out := out + [finalize(outLines, |out| + 1)];
    }
  }

  /** The as-written loop's state after `i` lines. */
  ghost predicate PackedAsWritten(ls: seq<string>, i: nat, budget: int, finalize: AdvancedChunker.Finalizer,
                                  chunks: seq<Chunk>, closed: seq<seq<string>>, outLines: seq<string>, approx: nat,
                                  out: seq<Chunk>) {
    && i <= |ls|
    && PackAsWritten(ls[..i], budget) == AdvancedChunker.PackState(closed, outLines, approx)
    && out == AdvancedChunker.AppendChunks(chunks, closed, finalize)
  }

  /** One line of the as-written loop. */
  method PackLineAsWritten(ls: seq<string>, i: nat, budget: int, finalize: AdvancedChunker.Finalizer,
                           ghost chunks: seq<Chunk>, out: seq<Chunk>, outLines: seq<string>, approx: nat,
                           ghost closed: seq<seq<string>>)
    returns (newOut: seq<Chunk>, newLines: seq<string>, newApprox: nat, ghost newClosed: seq<seq<string>>)
    requires i < |ls| && PackedAsWritten(ls, i, budget, finalize, chunks, closed, outLines, approx, out)
    ensures PackedAsWritten(ls, i + 1, budget, finalize, chunks, newClosed, newLines, newApprox, newOut)
  {
    var ln := ls[i];
    assert ls[..i + 1][..i] == ls[..i];
    var lineApprox := approx + Text.EstimateTokens(ln);
    newOut, newLines, newClosed := out, outLines, closed;
    if outLines != [] && lineApprox > budget {
      AdvancedChunker.AppendChunksSnoc(chunks, closed, outLines, finalize);
      newOut := out + [finalize(outLines, |out| + 1)];
      newClosed := closed + [outLines];
      newLines := [];
    }
    newLines := newLines + [ln];
    newApprox := lineApprox;
  }

  // ---------------------------------------------------------------- corrected packing

  /** The lines the packing loop sees: those of the buffer joined by line
      feeds and stripped; none when that text is empty. */
  function BufferLines(buffer: seq<string>): seq<string> {
    Text.SplitLines(Text.Strip(Text.Join("\n", buffer)))
  }

  /** The groups of lines that become chunks, with the running estimate
      restarting at the new line's own after a flush. */
  function BufferGroups(buffer: seq<string>, budget: int): seq<seq<string>> {
    AdvancedChunker.Groups(BufferLines(buffer), budget)
  }

  /** A buffer yields no chunk exactly when its joined text is blank; in
      particular a buffer of blank lines yields none. */
  lemma {:induction false} BufferGroupsEmpty(buffer: seq<string>, budget: int)
    ensures BufferGroups(buffer, budget) == [] <==> Text.IsBlank(Text.Join("\n", buffer))
    ensures (forall k :: 0 <= k < |buffer| ==> Text.IsBlank(buffer[k])) ==> BufferGroups(buffer, budget) == []
  {
    BufferLinesEmpty(buffer);
    AdvancedChunker.GroupsSpec(BufferLines(buffer), budget);
    if forall k :: 0 <= k < |buffer| ==> Text.IsBlank(buffer[k]) {
      AdvancedChunker.JoinBlank(buffer);
    }
  }

  lemma {:induction false} BufferLinesEmpty(buffer: seq<string>)
    ensures BufferLines(buffer) == [] <==> Text.IsBlank(Text.Join("\n", buffer))
  {
    var text := Text.Strip(Text.Join("\n", buffer));
    Text.StripSpec(Text.Join("\n", buffer));
    if text != "" {
      assert text[|text| - 1] != '\n' by { assert Text.IsSpace('\n'); }
    }
  }

  /** The corrected packing takes every line once, in order, and follows
      the greedy budget rule: a group of two or more lines fits, and no
      group could have taken the next line. */
  lemma {:induction false} BufferGroupsSpec(buffer: seq<string>, budget: int)
    ensures AdvancedChunker.Concat(BufferGroups(buffer, budget)) == BufferLines(buffer)
    ensures AdvancedChunker.GreedyGroups(BufferGroups(buffer, budget), budget)
    ensures var gs := BufferGroups(buffer, budget);
      forall k, m :: 0 <= k < |gs| && 0 <= m < |gs[k]| ==> '\n' !in gs[k][m]
  {
    var gs := BufferGroups(buffer, budget);
    AdvancedChunker.GroupsSpec(BufferLines(buffer), budget);
    forall k, m | 0 <= k < |gs| && 0 <= m < |gs[k]| ensures '\n' !in gs[k][m] {
      AdvancedChunker.ConcatMember(gs, k);
      var j :| 0 <= j < |BufferLines(buffer)| && BufferLines(buffer)[j] == gs[k][m];
    }
  }

  /** `emit_buffer_as_chunks` with the estimate restarting after a flush:
      one chunk per group of `BufferGroups`. */
  method EmitBuffer(buffer: seq<string>, budget: int, finalize: AdvancedChunker.Finalizer, chunks: seq<Chunk>)
    returns (out: seq<Chunk>)
    ensures out == AdvancedChunker.AppendChunks(chunks, BufferGroups(buffer, budget), finalize)
  {
    out := chunks;
    if buffer == [] {
      return;
    }
    var text := Text.Strip(Text.Join("\n", buffer));
    if text == "" {
      return;
    }
    out := AdvancedChunker.EmitBuffer(Text.SplitLines(text), budget, finalize, chunks);
  }

  // ---------------------------------------------------------------- the walk

  /** One step of the walk at a line that is not a heading: a table
      becomes one rendered block, any other line is buffered as it is. */
  function LineStep(lines: seq<string>, i: nat, buffer: seq<string>): (r: (seq<string>, nat))
    requires i < |lines|
    ensures i < r.1 <= |lines|
  {
    if Markdown.StartsTable(lines, i) then
      var e := Markdown.TableEnd(lines, i + 2);
      (buffer + [Markdown.TableText(Markdown.SplitRow(lines[i]), Markdown.SplitRows(lines[i + 2..e]))], e)
    else
      (buffer + [lines[i]], i + 1)
  }

  /** A table is taken whole: the walk goes on after its last row, and
      the rendered table is the one new block. */
  lemma {:induction false} LineStepTable(lines: seq<string>, i: nat, buffer: seq<string>)
    requires i < |lines|
    ensures var r := LineStep(lines, i, buffer);
      && r.0[..|buffer|] == buffer && |r.0| == |buffer| + 1
      && (Markdown.StartsTable(lines, i) ==>
            i + 2 <= r.1 && (r.1 == |lines| || '|' !in lines[r.1]) && r.0[|buffer|][..7] == "TABLE:\n")
      && (!Markdown.StartsTable(lines, i) ==> r.1 == i + 1 && r.0[|buffer|] == lines[i])
  {
    if Markdown.StartsTable(lines, i) {
      Markdown.TableEndSpec(lines, i + 2);
      var e := Markdown.TableEnd(lines, i + 2);
      Markdown.TableTextPrefix(Markdown.SplitRow(lines[i]), Markdown.SplitRows(lines[i + 2..e]));
    }
  }

  /** The table branch of the walk, then the plain-line branch. */
  method BufferLine(lines: seq<string>, i: nat, buffer: seq<string>) returns (newBuffer: seq<string>, next: nat)
    requires i < |lines|
    ensures (newBuffer, next) == LineStep(lines, i, buffer)
  {
    var tableText, nextI := Markdown.ParseTableBlock(lines, i);
    if tableText != "" {
      newBuffer, next := buffer + [tableText], nextI;
    } else {
      newBuffer, next := buffer + [lines[i]], i + 1;
    }
  }

  /** The sections the walk closes from line `i` on (see
      `AdvancedChunker.Walk`). */
  function Walk(lines: seq<string>, i: nat, ctx: Markdown.Context, buffer: seq<string>): (ss: seq<Section>)
    requires i <= |lines|
    ensures ss != []
    decreases |lines| - i, 1
  {
    if i == |lines| then [AdvancedChunker.Section(ctx, buffer)]
    else if Markdown.IsHeading(lines[i]) then
      var line := lines[i];
      [AdvancedChunker.Section(ctx, buffer)]
        + Walk(lines, i + 1, Markdown.UpdateContext(ctx, Markdown.HeadingLevel(line), Markdown.HeadingTitle(line)), [])
    else
      WalkOn(lines, i, ctx, buffer)
  }

  function WalkOn(lines: seq<string>, i: nat, ctx: Markdown.Context, buffer: seq<string>): (ss: seq<Section>)
    requires i < |lines|
    ensures ss != []
    decreases |lines| - i, 0
  {
    var step := LineStep(lines, i, buffer);
    Walk(lines, step.1, ctx, step.0)
  }

  /** The chunks of the sections, numbered through the document. */
  function SectionChunks(ss: seq<Section>, budget: int, source: string): seq<Chunk> {
    if ss == [] then []
    else
      var s := ss[|ss| - 1];
      AdvancedChunker.AppendChunks(SectionChunks(ss[..|ss| - 1], budget, source), BufferGroups(s.blocks, budget),
                                   AdvancedChunker.FinalizerFor(s.ctx, source))
  }

  lemma {:induction false} SectionsSnoc(ss: seq<Section>, s: Section, budget: int, source: string)
    ensures AdvancedChunker.SectionContexts(ss + [s]) == AdvancedChunker.SectionContexts(ss) + [s.ctx]
    ensures SectionChunks(ss + [s], budget, source)
      == AdvancedChunker.AppendChunks(SectionChunks(ss, budget, source), BufferGroups(s.blocks, budget),
                                      AdvancedChunker.FinalizerFor(s.ctx, source))
  {
    assert (ss + [s])[..|ss|] == ss;
  }

  /** What the walk keeps true once it reaches line `i` (as in
      `AdvancedChunker.Walked`). */
  ghost predicate Walked(lines: seq<string>, budget: int, source: string, i: nat, heads: seq<nat>,
                         closed: seq<Section>, headings: Markdown.Context, buffer: seq<string>, out: seq<Chunk>) {
    && i <= |lines|
    && closed + Walk(lines, i, headings, buffer) == Walk(lines, 0, map[], [])
    && AdvancedChunker.HeadingPositions(lines, heads)
    && AdvancedChunker.Ascending(heads)
    && (heads != [] ==> heads[|heads| - 1] < i)
    && AdvancedChunker.SectionContexts(closed) + [headings] == AdvancedChunker.Contexts(lines, heads)
    && out == SectionChunks(closed, budget, source)
  }

  lemma {:induction false} WalkedStart(lines: seq<string>, budget: int, source: string)
    ensures Walked(lines, budget, source, 0, [], [], map[], [], [])
  {
    var closed: seq<Section> := [];
    var heads: seq<nat> := [];
    assert AdvancedChunker.HeadingPositions(lines, heads) && AdvancedChunker.Ascending(heads);
    assert AdvancedChunker.SectionContexts(closed) + [map[]] == AdvancedChunker.Contexts(lines, heads);
    assert SectionChunks(closed, budget, source) == [];
    assert closed + Walk(lines, 0, map[], []) == Walk(lines, 0, map[], []);
  }

  lemma {:induction false} WalkedEnd(lines: seq<string>, budget: int, source: string, heads: seq<nat>,
                  closed: seq<Section>, headings: Markdown.Context, buffer: seq<string>, out: seq<Chunk>)
    requires Walked(lines, budget, source, |lines|, heads, closed, headings, buffer, out)
    ensures AdvancedChunker.HeadingPositions(lines, heads) && AdvancedChunker.Ascending(heads)
    ensures AdvancedChunker.SectionContexts(Walk(lines, 0, map[], [])) == AdvancedChunker.Contexts(lines, heads)
    ensures SectionChunks(Walk(lines, 0, map[], []), budget, source)
      == AdvancedChunker.AppendChunks(out, BufferGroups(buffer, budget), AdvancedChunker.FinalizerFor(headings, source))
  {
    SectionsSnoc(closed, AdvancedChunker.Section(headings, buffer), budget, source);
  }

  lemma {:induction false} WalkNonHeading(lines: seq<string>, i: nat, ctx: Markdown.Context, buffer: seq<string>)
    requires i < |lines| && !Markdown.IsHeading(lines[i])
    ensures Walk(lines, i, ctx, buffer) == Walk(lines, LineStep(lines, i, buffer).1, ctx, LineStep(lines, i, buffer).0)
  {
  }

  /** The heading branch: the buffer is packed under the context it was
      gathered in, then the context takes the heading. */
  method EnterHeading(lines: seq<string>, i: nat, headings: Markdown.Context, buffer: seq<string>,
                      out: seq<Chunk>, budget: int, source: string, ghost heads: seq<nat>, ghost closed: seq<Section>)
    returns (newHeadings: Markdown.Context, newOut: seq<Chunk>)
    requires i < |lines| && Markdown.IsHeading(lines[i])
    requires Walked(lines, budget, source, i, heads, closed, headings, buffer, out)
    ensures Walked(lines, budget, source, i + 1, heads + [i], closed + [AdvancedChunker.Section(headings, buffer)], newHeadings, [], newOut)
  {
    var line := lines[i];
    ghost var section := AdvancedChunker.Section(headings, buffer);
    newOut := EmitBuffer(buffer, budget, AdvancedChunker.FinalizerFor(headings, source), out);
    SectionsSnoc(closed, section, budget, source);
    newHeadings := Markdown.UpdateContext(headings, Markdown.HeadingLevel(line), Markdown.HeadingTitle(line));
    AdvancedChunker.ContextsSnoc(lines, heads, i);
    ghost var rest := Walk(lines, i + 1, newHeadings, []);
    assert Walk(lines, i, headings, buffer) == [section] + rest;
    AdvancedChunker.AppendAssoc(closed, [section], rest);
  }

  method WalkStep(lines: seq<string>, i: nat, headings: Markdown.Context, buffer: seq<string>, out: seq<Chunk>,
                  budget: int, source: string, ghost heads: seq<nat>, ghost closed: seq<Section>)
    returns (next: nat, newHeadings: Markdown.Context, newBuffer: seq<string>, newOut: seq<Chunk>,
             ghost newHeads: seq<nat>, ghost newClosed: seq<Section>)
    requires i < |lines| && Walked(lines, budget, source, i, heads, closed, headings, buffer, out)
    ensures i < next && Walked(lines, budget, source, next, newHeads, newClosed, newHeadings, newBuffer, newOut)
  {
    if Markdown.IsHeading(lines[i]) {
      next, newHeadings, newBuffer, newOut, newHeads, newClosed := HeadingStep(lines, i, headings, buffer, out, budget, source, heads, closed);
    } else {
      next, newHeadings, newBuffer, newOut, newHeads, newClosed := BufferStep(lines, i, headings, buffer, out, budget, source, heads, closed);
    }
  }

  /** The heading branch of the walk, with the walk's whole state. */
  method HeadingStep(lines: seq<string>, i: nat, headings: Markdown.Context, buffer: seq<string>, out: seq<Chunk>,
                     budget: int, source: string, ghost heads: seq<nat>, ghost closed: seq<Section>)
    returns (next: nat, newHeadings: Markdown.Context, newBuffer: seq<string>, newOut: seq<Chunk>,
             ghost newHeads: seq<nat>, ghost newClosed: seq<Section>)
    requires i < |lines| && Markdown.IsHeading(lines[i])
    requires Walked(lines, budget, source, i, heads, closed, headings, buffer, out)
    ensures i < next && Walked(lines, budget, source, next, newHeads, newClosed, newHeadings, newBuffer, newOut)
  {
    newHeadings, newOut := EnterHeading(lines, i, headings, buffer, out, budget, source, heads, closed);
    next, newBuffer, newHeads, newClosed := i + 1, [], heads + [i], closed + [AdvancedChunker.Section(headings, buffer)];
  }

  /** The other branch: the line is buffered and the open section goes on. */
  method BufferStep(lines: seq<string>, i: nat, headings: Markdown.Context, buffer: seq<string>, out: seq<Chunk>,
                    budget: int, source: string, ghost heads: seq<nat>, ghost closed: seq<Section>)
    returns (next: nat, newHeadings: Markdown.Context, newBuffer: seq<string>, newOut: seq<Chunk>,
             ghost newHeads: seq<nat>, ghost newClosed: seq<Section>)
    requires i < |lines| && !Markdown.IsHeading(lines[i])
    requires Walked(lines, budget, source, i, heads, closed, headings, buffer, out)
    ensures newHeadings == headings && newOut == out && newHeads == heads && newClosed == closed
    ensures i < next && Walked(lines, budget, source, next, newHeads, newClosed, newHeadings, newBuffer, newOut)
  {
    WalkedOn(lines, budget, source, i, heads, closed, headings, buffer, out);
    newBuffer, next := BufferLine(lines, i, buffer);
    newHeadings, newOut, newHeads, newClosed := headings, out, heads, closed;
  }

  /** A line that is not a heading keeps the walk's invariant. */
  lemma {:induction false} WalkedOn(lines: seq<string>, budget: int, source: string, i: nat, heads: seq<nat>,
                                    closed: seq<Section>, headings: Markdown.Context, buffer: seq<string>, out: seq<Chunk>)
    requires i < |lines| && !Markdown.IsHeading(lines[i])
    requires Walked(lines, budget, source, i, heads, closed, headings, buffer, out)
    ensures i < LineStep(lines, i, buffer).1
    ensures Walked(lines, budget, source, LineStep(lines, i, buffer).1, heads, closed, headings, LineStep(lines, i, buffer).0, out)
  {
    WalkNonHeading(lines, i, headings, buffer);
  }

  /** The walk over the lines, before the renumbering. */
  method WalkLines(lines: seq<string>, budget: int, source: string)
    returns (out: seq<Chunk>, ghost heads: seq<nat>)
    ensures AdvancedChunker.HeadingPositions(lines, heads)
    ensures AdvancedChunker.Ascending(heads)
    ensures AdvancedChunker.SectionContexts(Walk(lines, 0, map[], [])) == AdvancedChunker.Contexts(lines, heads)
    ensures out == SectionChunks(Walk(lines, 0, map[], []), budget, source)
  {
    out := [];
    var headings: Markdown.Context := map[];
    var bufferLines: seq<string> := [];
    heads := [];
    ghost var closed: seq<Section> := [];
    var i := 0;
    WalkedStart(lines, budget, source);
    while i < |lines|
      invariant Walked(lines, budget, source, i, heads, closed, headings, bufferLines, out)
      decreases |lines| - i
    {
      i, headings, bufferLines, out, heads, closed := WalkStep(lines, i, headings, bufferLines, out, budget, source, heads, closed);
    }
    WalkedEnd(lines, budget, source, heads, closed, headings, bufferLines, out);
    out := EmitBuffer(bufferLines, budget, AdvancedChunker.FinalizerFor(headings, source), out);
  }

  /** `build_chunks_from_markdown(md_text, chunk_size_tokens, source)` with
      the corrected packing: the chunks of every section of `Walk` in
      turn, renumbered `<stem>-1..n`; section `j` was buffered under the
      context left by the first `j` processed headings `heads`. */
  method BuildChunks(mdText: string, budget: int, source: string)
    returns (chunks: seq<Chunk>, ghost heads: seq<nat>)
    ensures var lines := Text.SplitLines(mdText);
      var sections := Walk(lines, 0, map[], []);
      && AdvancedChunker.HeadingPositions(lines, heads)
      && AdvancedChunker.Ascending(heads)
      && AdvancedChunker.SectionContexts(sections) == AdvancedChunker.Contexts(lines, heads)
      && chunks == AdvancedChunker.Renumber(SectionChunks(sections, budget, source), source)
  {
    var lines := Text.SplitLines(mdText);
    var out;
    out, heads := WalkLines(lines, budget, source);
    chunks := AdvancedChunker.RenumberChunks(out, source);
  }
}
