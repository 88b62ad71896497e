/** The advanced Markdown chunker: walks the lines of a document keeping
    the active heading context, buffers blocks (single lines, rendered
    tables, list blocks and paragraph-plus-list blocks) and, at every
    heading and at the end, packs the buffered blocks into chunks under a
    word-count budget without ever splitting a block. */
module AdvancedChunker {
  import opened Wrappers
  import Text
  import Markdown
  import Keywords
  import Paths

  /** One output record: id, text, heading metadata, keywords and the
      word-count estimate. */
  datatype Chunk = Chunk(
    chunkId: string,
    text: string,
    headings: seq<(string, string)>,
    keywords: seq<string>,
    approxTokens: nat)

  // ---------------------------------------------------------------- packing

  /** The packing loop's state after a prefix of the buffer: the groups
      already flushed, the open group and its running estimate. */
  datatype PackState = PackState(closed: seq<seq<string>>, open: seq<string>, approx: nat)

  /** The packing of `emit_buffer_as_chunks`, one block at a time: a block
      that would push a non-empty open group over the budget flushes it
      first; the block always joins the open group whole. */
  function PackPrefix(blocks: seq<string>, budget: int): PackState {
    if blocks == [] then PackState([], [], 0)
    else
      var st := PackPrefix(blocks[..|blocks| - 1], budget);
      var b := blocks[|blocks| - 1];
      var t := Text.EstimateTokens(b);
      if st.open != [] && st.approx + t > budget then PackState(st.closed + [st.open], [b], t)
      else PackState(st.closed, st.open + [b], st.approx + t)
  }

  /** The groups of blocks that become chunks, in order. */
  function Groups(blocks: seq<string>, budget: int): seq<seq<string>> {
    var st := PackPrefix(blocks, budget);
    if st.open == [] then st.closed else st.closed + [st.open]
  }

  function Concat(gs: seq<seq<string>>): seq<string> {
    if gs == [] then [] else Concat(gs[..|gs| - 1]) + gs[|gs| - 1]
  }

  /** Every group is non-empty; a group of two or more blocks fits the
      budget; and no group could have taken the first block of the next
      one without going over. */
  ghost predicate GreedyGroups(gs: seq<seq<string>>, budget: int) {
    && (forall k :: 0 <= k < |gs| ==> gs[k] != [] && (|gs[k]| == 1 || Text.SumTokens(gs[k]) <= budget))
    && (forall j, k :: 0 <= j < k < |gs| && k == j + 1 ==> Text.SumTokens(gs[j]) + Text.EstimateTokens(gs[k][0]) > budget)
  }

  lemma {:induction false} ConcatSnoc(gs: seq<seq<string>>, g: seq<string>)
    ensures Concat(gs + [g]) == Concat(gs) + g
  {
    assert (gs + [g])[..|gs|] == gs;
  }

  /** What holds of the packing state after any prefix of the buffer. */
  ghost predicate PackInv(blocks: seq<string>, st: PackState, budget: int) {
    && Concat(st.closed) + st.open == blocks
    && st.approx == Text.SumTokens(st.open)
    && (blocks == [] ==> st.closed == [] && st.open == [])
    && (blocks != [] ==> st.open != [] && GreedyGroups(st.closed + [st.open], budget))
  }

  lemma {:induction false} PackPrefixInvariant(blocks: seq<string>, budget: int)
    ensures PackInv(blocks, PackPrefix(blocks, budget), budget)
  {
    if blocks != [] {
      var init := blocks[..|blocks| - 1];
      var b := blocks[|blocks| - 1];
      assert blocks == init + [b];
      PackPrefixInvariant(init, budget);
      var st := PackPrefix(init, budget);
      if st.open != [] && st.approx + Text.EstimateTokens(b) > budget {
        PackStepFlush(init, st, b, budget);
      } else {
        PackStepExtend(init, st, b, budget);
      }
    }
  }

  lemma {:induction false} PackStepFlush(init: seq<string>, st: PackState, b: string, budget: int)
    requires PackInv(init, st, budget) && st.open != [] && st.approx + Text.EstimateTokens(b) > budget
    ensures PackInv(init + [b], PackState(st.closed + [st.open], [b], Text.EstimateTokens(b)), budget)
  {
    ConcatSnoc(st.closed, st.open);
    Text.SumTokensAppend([], b);
    var gs := st.closed + [st.open];
    assert gs[|gs| - 1] == st.open;
    GreedyFlush(gs, b, budget);
  }

  lemma {:induction false} PackStepExtend(init: seq<string>, st: PackState, b: string, budget: int)
    requires PackInv(init, st, budget) && !(st.open != [] && st.approx + Text.EstimateTokens(b) > budget)
    ensures PackInv(init + [b], PackState(st.closed, st.open + [b], st.approx + Text.EstimateTokens(b)), budget)
  {
    Text.SumTokensAppend(st.open, b);
    if st.open == [] {
      assert GreedyGroups([[b]], budget);
    } else {
      GreedyExtend(st.closed, st.open, b, budget);
    }
  }

  /** Starting a new group with a block that did not fit keeps the split
      greedy. */
  lemma {:induction false} GreedyFlush(gs: seq<seq<string>>, b: string, budget: int)
    requires gs != [] && GreedyGroups(gs, budget)
    requires Text.SumTokens(gs[|gs| - 1]) + Text.EstimateTokens(b) > budget
    ensures GreedyGroups(gs + [[b]], budget)
  {
    var hs := gs + [[b]];
    forall k | 0 <= k < |hs|
      ensures hs[k] != [] && (|hs[k]| == 1 || Text.SumTokens(hs[k]) <= budget)
    {
      if k < |gs| { assert hs[k] == gs[k]; }
    }
    forall j, k | 0 <= j < k < |hs| && k == j + 1
      ensures Text.SumTokens(hs[j]) + Text.EstimateTokens(hs[k][0]) > budget
    {
      assert hs[j] == gs[j];
      if k < |gs| { assert hs[k] == gs[k]; }
    }
  }

  /** Adding a block that fits to the last group keeps the split greedy. */
  lemma {:induction false} GreedyExtend(closed: seq<seq<string>>, open: seq<string>, b: string, budget: int)
    requires open != [] && GreedyGroups(closed + [open], budget)
    requires Text.SumTokens(open + [b]) <= budget
    ensures GreedyGroups(closed + [open + [b]], budget)
  {
    var gs := closed + [open];
    var hs := closed + [open + [b]];
    forall k | 0 <= k < |hs|
      ensures hs[k] != [] && (|hs[k]| == 1 || Text.SumTokens(hs[k]) <= budget)
    {
      if k < |closed| { assert hs[k] == gs[k]; }
    }
    forall j, k | 0 <= j < k < |hs| && k == j + 1
      ensures Text.SumTokens(hs[j]) + Text.EstimateTokens(hs[k][0]) > budget
    {
      assert hs[j] == gs[j];
      if k < |closed| { assert hs[k] == gs[k]; } else { assert hs[k][0] == gs[k][0]; }
    }
  }

  /** Packing keeps every block whole and in order, and the groups follow
      the greedy budget rule; an empty buffer gives no group. */
  lemma {:induction false} GroupsSpec(blocks: seq<string>, budget: int)
    ensures Concat(Groups(blocks, budget)) == blocks
    ensures GreedyGroups(Groups(blocks, budget), budget)
    ensures Groups(blocks, budget) == [] <==> blocks == []
  {
    PackPrefixInvariant(blocks, budget);
    var st := PackPrefix(blocks, budget);
    if blocks != [] {
      ConcatSnoc(st.closed, st.open);
    }
  }

  /** The greedy rule fixes the grouping: any split of the blocks into
      groups obeying it is the one packing produces. */
  lemma {:induction false} GreedyGroupsUnique(blocks: seq<string>, budget: int, gs: seq<seq<string>>)
    requires Concat(gs) == blocks && GreedyGroups(gs, budget)
    ensures gs == Groups(blocks, budget)
    decreases |gs|
  {
    if gs != [] {
      var init := gs[..|gs| - 1];
      var g := gs[|gs| - 1];
      assert gs == init + [g];
      var pre := Concat(init);
      assert blocks == pre + g;
      assert GreedyGroups(init, budget) by {
        assert forall k :: 0 <= k < |init| ==> init[k] == gs[k];
      }
      GreedyGroupsUnique(pre, budget, init);
      GreedyLastGroup(pre, g, budget, init);
    }
  }

  /** Appending the last group of a greedy split to the blocks before it. */
  lemma {:induction false} GreedyLastGroup(pre: seq<string>, g: seq<string>, budget: int, init: seq<seq<string>>)
    requires init == Groups(pre, budget)
    requires GreedyGroups(init + [g], budget)
    ensures Groups(pre + g, budget) == init + [g]
    decreases |g|
  {
    var gs := init + [g];
    assert gs[|init|] == g;
    if |g| == 1 {
      assert g == [g[0]];
      GreedyLastSingle(pre, g[0], budget, init);
    } else {
      var h := g[..|g| - 1];
      var b := g[|g| - 1];
      assert g == h + [b];
      GreedyPrefix(init, g, h, budget);
      GreedyLastGroup(pre, h, budget, init);
      assert pre + g == (pre + h) + [b];
      GreedyLastExtend(pre, h, b, budget, init);
    }
  }

  lemma {:induction false} GreedyLastSingle(pre: seq<string>, b: string, budget: int, init: seq<seq<string>>)
    requires init == Groups(pre, budget)
    requires GreedyGroups(init + [[b]], budget)
    ensures Groups(pre + [b], budget) == init + [[b]]
  {
    PackPrefixInvariant(pre, budget);
    var st := PackPrefix(pre, budget);
    assert (pre + [b])[..|pre|] == pre;
    Text.SumTokensAppend([], b);
    if pre != [] {
      var gs := init + [[b]];
      assert init == st.closed + [st.open];
      assert gs[|init| - 1] == st.open;
      assert gs[|init|][0] == b;
      assert Text.SumTokens(gs[|init| - 1]) + Text.EstimateTokens(gs[|init|][0]) > budget;
    }
  }

  lemma {:induction false} GreedyLastExtend(pre: seq<string>, h: seq<string>, b: string, budget: int, init: seq<seq<string>>)
    requires h != [] && Groups(pre + h, budget) == init + [h]
    requires Text.SumTokens(h + [b]) <= budget
    ensures Groups((pre + h) + [b], budget) == init + [h + [b]]
  {
    PackPrefixInvariant(pre + h, budget);
    Text.SumTokensAppend(h, b);
    var st := PackPrefix(pre + h, budget);
    assert ((pre + h) + [b])[..|pre + h|] == pre + h;
    assert st.closed + [st.open] == init + [h];
    assert st.open == (st.closed + [st.open])[|init|];
    assert st.closed == (st.closed + [st.open])[..|init|];
  }

  /** Dropping the last block of the last group keeps the split greedy. */
  lemma {:induction false} GreedyPrefix(init: seq<seq<string>>, g: seq<string>, h: seq<string>, budget: int)
    requires GreedyGroups(init + [g], budget) && |g| >= 2 && h == g[..|g| - 1]
    ensures GreedyGroups(init + [h], budget)
  {
    var gs := init + [g];
    var hs := init + [h];
    assert gs[|init|] == g;
    assert g == h + [g[|g| - 1]];
    Text.SumTokensAppend(h, g[|g| - 1]);
    forall k | 0 <= k < |hs|
      ensures hs[k] != [] && (|hs[k]| == 1 || Text.SumTokens(hs[k]) <= budget)
    {
      if k < |init| { assert hs[k] == gs[k]; }
    }
    forall j, k | 0 <= j < k < |hs| && k == j + 1
      ensures Text.SumTokens(hs[j]) + Text.EstimateTokens(hs[k][0]) > budget
    {
      assert hs[j] == gs[j];
      if k < |init| { assert hs[k] == gs[k]; } else { assert hs[k][0] == g[0]; }
    }
  }

  // ---------------------------------------------------------------- chunks

  /** The levels of the context joined by `.`, or `0` when it is empty. */
  function LevelTag(ctx: Markdown.Context): string {
    var tag := Text.Join(".", LevelNames(Markdown.Levels(ctx, 1)));
    if tag == "" then "0" else tag
  }

  function LevelNames(ls: seq<nat>): (names: seq<string>)
    ensures |names| == |ls|
  {
    if ls == [] then [] else [Text.NatToString(ls[0])] + LevelNames(ls[1..])
  }

  /** The provisional id `<name>-h<levels>-<n>`, overwritten at the end. */
  function InitialId(source: string, ctx: Markdown.Context, n: nat): string {
    Paths.Name(source) + "-h" + LevelTag(ctx) + "-" + Text.NatToString(n)
  }

  /** `finalize_one` for the `n`-th chunk of the document. */
  function MakeChunk(g: seq<string>, ctx: Markdown.Context, source: string, n: nat): Chunk {
    var text := Text.Strip(Text.Join("\n", g));
    Chunk(InitialId(source, ctx, n), text, Markdown.HeadingsMeta(ctx),
          Keywords.ExtractKeywords(text, 5), Text.EstimateTokens(text))
  }

  /** The closure `finalize_one` as the packing loop sees it: it captures
      the source path and the heading context, and takes the packed blocks
      and the number the new chunk gets. */
  type Finalizer = (seq<string>, nat) -> Chunk

  function FinalizerFor(ctx: Markdown.Context, source: string): Finalizer {
    (g: seq<string>, n: nat) => MakeChunk(g, ctx, source, n)
  }

  /** `chunks` followed by one chunk per group, numbered on from the
      chunks already there. */
  function AppendChunks(chunks: seq<Chunk>, gs: seq<seq<string>>, finalize: Finalizer): (r: seq<Chunk>)
    ensures |r| == |chunks| + |gs|
  {
    if gs == [] then chunks
    else
      var pre := AppendChunks(chunks, gs[..|gs| - 1], finalize);
      pre + [finalize(gs[|gs| - 1], |pre| + 1)]
  }

  /** The chunks already there are kept, and the `k`-th new chunk is made
      from the `k`-th group and numbered after everything before it. */
  lemma {:induction false} AppendChunksSpec(chunks: seq<Chunk>, gs: seq<seq<string>>, finalize: Finalizer)
    ensures var r := AppendChunks(chunks, gs, finalize);
      && r[..|chunks|] == chunks
      && forall k :: 0 <= k < |gs| ==> r[|chunks| + k] == finalize(gs[k], |chunks| + k + 1)
  {
    if gs != [] {
      var init := gs[..|gs| - 1];
      AppendChunksSpec(chunks, init, finalize);
      var pre := AppendChunks(chunks, init, finalize);
      var r := AppendChunks(chunks, gs, finalize);
      assert r == pre + [finalize(gs[|gs| - 1], |pre| + 1)];
      forall k | 0 <= k < |gs| ensures r[|chunks| + k] == finalize(gs[k], |chunks| + k + 1) {
        if k < |init| {
          assert r[|chunks| + k] == pre[|chunks| + k];
          assert gs[k] == init[k];
        }
      }
    }
  }

  lemma {:induction false} AppendChunksAt(chunks: seq<Chunk>, gs: seq<seq<string>>, finalize: Finalizer, k: nat)
    requires k < |gs|
    ensures AppendChunks(chunks, gs, finalize)[|chunks| + k] == finalize(gs[k], |chunks| + k + 1)
  {
    AppendChunksSpec(chunks, gs, finalize);
  }

  /** A chunk's estimate is the sum of its blocks' estimates; it carries
      the heading context and at most five keywords of its text. */
  lemma {:induction false} MakeChunkSpec(g: seq<string>, ctx: Markdown.Context, source: string, n: nat)
    ensures var c := FinalizerFor(ctx, source)(g, n);
      && c.approxTokens == Text.SumTokens(g)
      && c.text == Text.Strip(Text.Join("\n", g))
      && c.headings == Markdown.HeadingsMeta(ctx)
      && |c.keywords| <= 5
      && (forall k :: 0 <= k < |c.keywords| ==> Keywords.IsCandidate(c.keywords[k]))
  {
    var c := FinalizerFor(ctx, source)(g, n);
    var text := Text.Strip(Text.Join("\n", g));
    assert c == MakeChunk(g, ctx, source, n);
    assert c.approxTokens == Text.EstimateTokens(text) && c.keywords == Keywords.ExtractKeywords(text, 5);
    Text.EstimateTokensStrip(Text.Join("\n", g));
    Text.EstimateTokensJoin(g);
    Keywords.ExtractKeywordsCandidates(text, 5);
  }

  /** `emit_buffer_as_chunks`: packs the buffer and appends one chunk per
      group; an empty buffer appends nothing. */
  method EmitBuffer(buffer: seq<string>, budget: int, finalize: Finalizer, chunks: seq<Chunk>)
    returns (out: seq<Chunk>)
    ensures out == AppendChunks(chunks, Groups(buffer, budget), finalize)
  {
    out := chunks;
    if buffer == [] {
      return;
    }
    var outBlocks: seq<string> := [];
    var approx: nat := 0;
    ghost var closed: seq<seq<string>> := [];
    var i := 0;
    while i < |buffer|
      invariant Packed(buffer, i, budget, finalize, chunks, closed, outBlocks, approx, out)
      decreases |buffer| - i
    {
      out, outBlocks, approx, closed := PackBlock(buffer, i, budget, finalize, chunks, out, outBlocks, approx, closed);
      i := i + 1;
    }
    assert buffer[..i] == buffer;
    if outBlocks != [] {
      AppendChunksSnoc(chunks, closed, outBlocks, finalize);
      out := out + [finalize(outBlocks, |out| + 1)];
    }
  }

  /** The packing loop's state after `i` blocks: `closed` are the groups
      already flushed, whose chunks `out` holds after `chunks`, and
      `outBlocks` the open group with its estimate `approx`. */
  ghost predicate Packed(buffer: seq<string>, i: nat, budget: int, finalize: Finalizer, chunks: seq<Chunk>,
                         closed: seq<seq<string>>, outBlocks: seq<string>, approx: nat, out: seq<Chunk>) {
    && i <= |buffer|
    && PackPrefix(buffer[..i], budget) == PackState(closed, outBlocks, approx)
    && out == AppendChunks(chunks, closed, finalize)
  }

  /** One block of the packing loop: `flush()` when the block would push a
      non-empty open group over the budget, then the block joins the open
      group. */
  method PackBlock(buffer: seq<string>, i: nat, budget: int, finalize: Finalizer, ghost chunks: seq<Chunk>,
                   out: seq<Chunk>, outBlocks: seq<string>, approx: nat, ghost closed: seq<seq<string>>)
    returns (newOut: seq<Chunk>, newBlocks: seq<string>, newApprox: nat, ghost newClosed: seq<seq<string>>)
    requires i < |buffer| && Packed(buffer, i, budget, finalize, chunks, closed, outBlocks, approx, out)
    ensures Packed(buffer, i + 1, budget, finalize, chunks, newClosed, newBlocks, newApprox, newOut)
  {
    var block := buffer[i];
    var blockTokens := Text.EstimateTokens(block);
    PackPrefixSnoc(buffer, i, budget);
    newOut, newBlocks, newApprox, newClosed := out, outBlocks, approx, closed;
    if outBlocks != [] && approx + blockTokens > budget {
      AppendChunksSnoc(chunks, closed, outBlocks, finalize);
      newOut := out + [finalize(outBlocks, |out| + 1)];
      newClosed := closed + [outBlocks];
      newBlocks := [];
      newApprox := 0;
    }
    newBlocks := newBlocks + [block];
    newApprox := newApprox + blockTokens;
  }

  lemma {:induction false} PackPrefixSnoc(blocks: seq<string>, i: nat, budget: int)
    requires i < |blocks|
    ensures var st := PackPrefix(blocks[..i], budget);
      var t := Text.EstimateTokens(blocks[i]);
      PackPrefix(blocks[..i + 1], budget)
        == if st.open != [] && st.approx + t > budget then PackState(st.closed + [st.open], [blocks[i]], t)
           else PackState(st.closed, st.open + [blocks[i]], st.approx + t)
  {
    assert blocks[..i + 1][..i] == blocks[..i];
  }

  lemma {:induction false} AppendChunksSnoc(chunks: seq<Chunk>, gs: seq<seq<string>>, g: seq<string>, finalize: Finalizer)
    ensures AppendChunks(chunks, gs + [g], finalize)
      == AppendChunks(chunks, gs, finalize) + [finalize(g, |chunks| + |gs| + 1)]
  {
    var gs' := gs + [g];
    assert gs'[..|gs'| - 1] == gs && gs'[|gs'| - 1] == g;
    var pre := AppendChunks(chunks, gs, finalize);
    assert |pre| + 1 == |chunks| + |gs| + 1;
    assert AppendChunks(chunks, gs', finalize) == pre + [finalize(g, |pre| + 1)];
  }

  /** A non-empty buffer of blank lines still yields chunks, each with
      empty text. */
  lemma {:induction false} BlankBufferChunks(buffer: seq<string>, ctx: Markdown.Context, budget: int, source: string)
    requires buffer != [] && forall k :: 0 <= k < |buffer| ==> Text.IsBlank(buffer[k])
    ensures var cs := AppendChunks([], Groups(buffer, budget), FinalizerFor(ctx, source));
      cs != [] && forall k :: 0 <= k < |cs| ==> cs[k].text == ""
  {
    GroupsSpec(buffer, budget);
    var gs := Groups(buffer, budget);
    var cs := AppendChunks([], gs, FinalizerFor(ctx, source));
    forall k | 0 <= k < |cs| ensures cs[k].text == "" {
      ConcatMember(gs, k);
      forall m | 0 <= m < |gs[k]| ensures Text.IsBlank(gs[k][m]) {
        var j :| 0 <= j < |buffer| && buffer[j] == gs[k][m];
      }
      BlankChunkAt(gs, ctx, source, k);
    }
  }

  lemma {:induction false} BlankChunkAt(gs: seq<seq<string>>, ctx: Markdown.Context, source: string, k: nat)
    requires k < |gs| && forall m :: 0 <= m < |gs[k]| ==> Text.IsBlank(gs[k][m])
    ensures AppendChunks([], gs, FinalizerFor(ctx, source))[k].text == ""
  {
    BlankGroupChunk(gs[k], ctx, source, k + 1);
    AppendChunksAt([], gs, FinalizerFor(ctx, source), k);
  }

  lemma {:induction false} BlankGroupChunk(g: seq<string>, ctx: Markdown.Context, source: string, n: nat)
    requires forall m :: 0 <= m < |g| ==> Text.IsBlank(g[m])
    ensures FinalizerFor(ctx, source)(g, n).text == ""
  {
    JoinBlank(g);
    Text.StripSpec(Text.Join("\n", g));
  }

  /** Every block of a group is a block of the concatenation. */
  lemma {:induction false} ConcatMember(gs: seq<seq<string>>, k: nat)
    requires k < |gs|
    ensures forall m :: 0 <= m < |gs[k]| ==> gs[k][m] in Concat(gs)
  {
    var init := gs[..|gs| - 1];
    assert gs == init + [gs[|gs| - 1]];
    if k < |init| {
      assert gs[k] == init[k];
      ConcatMember(init, k);
    }
  }

  lemma {:induction false} JoinBlank(parts: seq<string>)
    requires forall k :: 0 <= k < |parts| ==> Text.IsBlank(parts[k])
    ensures Text.IsBlank(Text.Join("\n", parts))
  {
    if |parts| > 1 {
      JoinBlank(parts[1..]);
      var rest := Text.Join("\n", parts[1..]);
      var j := parts[0] + "\n" + rest;
      forall i | 0 <= i < |j| ensures Text.IsSpace(j[i]) {
        if i < |parts[0]| {
          assert j[i] == parts[0][i];
        } else if i > |parts[0]| {
          assert j[i] == rest[i - |parts[0]| - 1];
        }
      }
    }
  }

  // ---------------------------------------------------------------- paragraph merge

  /** The buffer with its trailing blank blocks popped. */
  function TrimBlankTail(bs: seq<string>): (r: seq<string>)
    ensures r <= bs
    ensures forall k :: |r| <= k < |bs| ==> Text.IsBlank(bs[k])
    ensures r == [] || !Text.IsBlank(r[|r| - 1])
  {
    if bs != [] && Text.IsBlank(bs[|bs| - 1]) then TrimBlankTail(bs[..|bs| - 1]) else bs
  }

  /** The popping loop: drops trailing blocks that strip to nothing and
      counts them. */
  method PopBlankTail(buffer: seq<string>) returns (trimmed: seq<string>, popped: nat)
    ensures trimmed == TrimBlankTail(buffer) && popped == |buffer| - |trimmed|
  {
    trimmed := buffer;
    popped := 0;
    while trimmed != [] && Text.IsBlank(trimmed[|trimmed| - 1])
      invariant popped <= |buffer| && trimmed == buffer[..|buffer| - popped]
      invariant TrimBlankTail(trimmed) == TrimBlankTail(buffer)
    {
      trimmed := trimmed[..|trimmed| - 1];
      popped := popped + 1;
    }
  }

  /** The line between a paragraph and a list: one blank line when the
      source had any, none otherwise. */
  function MergeSeparator(gap: nat): string {
    if gap > 0 then "\n\n" else "\n"
  }

  /** The paragraph-merge step of `build_chunks_from_markdown`: pop the
      trailing blank blocks; if the paragraph's lines are then the tail of
      the buffer, replace them by one block holding paragraph and list;
      otherwise put back as many empty blocks as were popped. */
  method MergeParagraph(buffer: seq<string>, para: seq<string>, gap: nat, listText: string)
    returns (newBuffer: seq<string>, merged: bool)
    ensures var t := TrimBlankTail(buffer);
      && (merged <==> |t| >= |para| && t[|t| - |para|..] == para)
      && (merged ==> newBuffer == t[..|t| - |para|] + [Text.Join("\n", para) + MergeSeparator(gap) + listText])
      && (!merged ==> newBuffer == t + Blanks(|buffer| - |t|))
  {
    var popped;
    newBuffer, popped := PopBlankTail(buffer);
    var idxEnd := |newBuffer|;
    if idxEnd >= |para| {
      assert newBuffer[idxEnd - |para|..idxEnd] == newBuffer[idxEnd - |para|..];
    }
    if idxEnd >= |para| && newBuffer[idxEnd - |para|..idxEnd] == para {
      var combined := Text.Join("\n", para) + MergeSeparator(gap) + listText;
      newBuffer := newBuffer[..idxEnd - |para|] + [combined];
      merged := true;
    } else {
      newBuffer := newBuffer + Blanks(popped);
      merged := false;
    }
  }

  // ---------------------------------------------------------------- the walk

  /** The blocks buffered between two headings and the heading context
      they were buffered under. */
  datatype Section = Section(ctx: Markdown.Context, blocks: seq<string>)

  /** Every position in `hs` is a heading line of `lines`. */
  predicate HeadingPositions(lines: seq<string>, hs: seq<nat>) {
    hs == [] || (HeadingPositions(lines, hs[..|hs| - 1]) && hs[|hs| - 1] < |lines| && Markdown.IsHeading(lines[hs[|hs| - 1]]))
  }

  lemma {:induction false} HeadingPositionsAll(lines: seq<string>, hs: seq<nat>)
    requires HeadingPositions(lines, hs)
    ensures forall j :: 0 <= j < |hs| ==> hs[j] < |lines| && Markdown.IsHeading(lines[hs[j]])
  {
    if hs != [] {
      var init := hs[..|hs| - 1];
      HeadingPositionsAll(lines, init);
      assert forall j :: 0 <= j < |init| ==> hs[j] == init[j];
    }
  }

  /** Each position after the one before it. */
  predicate Ascending(hs: seq<nat>) {
    |hs| < 2 || (Ascending(hs[..|hs| - 1]) && hs[|hs| - 2] < hs[|hs| - 1])
  }

  lemma {:induction false} AscendingPairs(hs: seq<nat>)
    requires Ascending(hs)
    ensures forall j, k :: 0 <= j < k < |hs| ==> hs[j] < hs[k]
  {
    if |hs| >= 2 {
      var init := hs[..|hs| - 1];
      AscendingPairs(init);
      assert forall j :: 0 <= j < |init| ==> hs[j] == init[j];
    }
  }

  /** The heading contexts the walk goes through: the empty context, then
      the context after each heading at the positions `hs`, in order. */
  function Contexts(lines: seq<string>, hs: seq<nat>): (cs: seq<Markdown.Context>)
    requires HeadingPositions(lines, hs)
    ensures |cs| == |hs| + 1
  {
    if hs == [] then [map[]]
    else
      var pre := Contexts(lines, hs[..|hs| - 1]);
      var h := hs[|hs| - 1];
      pre + [Markdown.UpdateContext(pre[|pre| - 1], Markdown.HeadingLevel(lines[h]), Markdown.HeadingTitle(lines[h]))]
  }

  /** The chunks of the sections, numbered through the document. */
  function SectionChunks(ss: seq<Section>, budget: int, source: string): seq<Chunk> {
    if ss == [] then []
    else
      var s := ss[|ss| - 1];
      AppendChunks(SectionChunks(ss[..|ss| - 1], budget, source), Groups(s.blocks, budget), FinalizerFor(s.ctx, source))
  }

  /** The final renumbering: the `k`-th chunk (from 1) gets id `<stem>-k`. */
  function Renumber(cs: seq<Chunk>, source: string): (r: seq<Chunk>)
    ensures |r| == |cs|
  {
    seq(|cs|, k requires 0 <= k < |cs| => Numbered(cs[k], source, k + 1))
  }

  /** A chunk with the id `<stem>-n`. */
  function Numbered(c: Chunk, source: string, n: nat): Chunk {
    c.(chunkId := Paths.Stem(source) + "-" + Text.NatToString(n))
  }

  /** Renumbering changes the ids and nothing else. */
  lemma {:induction false} RenumberSpec(cs: seq<Chunk>, source: string)
    ensures var r := Renumber(cs, source);
      forall k :: 0 <= k < |r| ==>
        && r[k].chunkId == Paths.Stem(source) + "-" + Text.NatToString(k + 1)
        && r[k].text == cs[k].text && r[k].headings == cs[k].headings
        && r[k].keywords == cs[k].keywords && r[k].approxTokens == cs[k].approxTokens
  {
    forall k | 0 <= k < |cs|
      ensures Renumber(cs, source)[k] == cs[k].(chunkId := Paths.Stem(source) + "-" + Text.NatToString(k + 1))
    {
      RenumberAt(cs, source, k);
    }
  }

  lemma {:induction false} RenumberAt(cs: seq<Chunk>, source: string, k: nat)
    requires k < |cs|
    ensures Renumber(cs, source)[k] == cs[k].(chunkId := Paths.Stem(source) + "-" + Text.NatToString(k + 1))
  {
    assert Renumber(cs, source)[k] == Numbered(cs[k], source, k + 1);
  }

  /** After renumbering no two chunks share an id. */
  lemma {:induction false} RenumberDistinct(cs: seq<Chunk>, source: string)
    ensures var r := Renumber(cs, source);
      forall j, k :: 0 <= j < k < |r| ==> r[j].chunkId != r[k].chunkId
  {
    var r := Renumber(cs, source);
    var prefix := Paths.Stem(source) + "-";
    forall j, k | 0 <= j < k < |r| ensures r[j].chunkId != r[k].chunkId {
      RenumberAt(cs, source, j);
      RenumberAt(cs, source, k);
      Text.NumberedIdsDiffer(prefix, j + 1, k + 1);
    }
  }

  /** The closing loop that gives every chunk its final id. */
  method RenumberChunks(cs: seq<Chunk>, source: string) returns (r: seq<Chunk>)
    ensures r == Renumber(cs, source)
  {
    r := cs;
    var idx := 0;
    while idx < |r|
      invariant |r| == |cs| && 0 <= idx <= |r|
      invariant forall k :: 0 <= k < idx ==> r[k] == Renumber(cs, source)[k]
      invariant forall k :: idx <= k < |r| ==> r[k] == cs[k]
    {
      RenumberAt(cs, source, idx);
      r := r[idx := r[idx].(chunkId := Paths.Stem(source) + "-" + Text.NatToString(idx + 1))];
      idx := idx + 1;
    }
  }

  /** One step of the walk at a line that is not a heading, as a value:
      the new buffer and the next line. A table becomes one rendered
      block, a list block becomes one block (merged with the paragraph
      just before it when that paragraph is still at the end of the
      buffer), and any other line is buffered as it is. */
  function LineStep(lines: seq<string>, i: nat, buffer: seq<string>): (r: (seq<string>, nat))
    requires i < |lines|
    ensures i < r.1 <= |lines|
  {
    if Markdown.StartsTable(lines, i) then
      var e := Markdown.TableEnd(lines, i + 2);
      (buffer + [Markdown.TableText(Markdown.SplitRow(lines[i]), Markdown.SplitRows(lines[i + 2..e]))], e)
    else if Markdown.IsListItemStart(lines[i]) then
      var e := Markdown.ListEnd(lines, i);
      (ListStep(buffer, Markdown.PreviousParagraph(lines, i), Text.Join("\n", lines[i..e])), e)
    else
      (buffer + [lines[i]], i + 1)
  }

  /** The body of the walk's loop at a line that is not a heading. */
  method BufferLine(lines: seq<string>, i: nat, buffer: seq<string>) returns (newBuffer: seq<string>, next: nat)
    requires i < |lines| && !Markdown.IsHeading(lines[i])
    ensures (newBuffer, next) == LineStep(lines, i, buffer)
  {
    var line := lines[i];
    var tableText, nextI := Markdown.ParseTableBlock(lines, i);
    if tableText != "" {
      return buffer + [tableText], nextI;
    }
    if Markdown.IsListItemStart(line) {
      newBuffer, next := BufferList(lines, i, buffer);
      return;
    }
    return buffer + [line], i + 1;
  }

  /** `n` empty blocks. */
  function Blanks(n: nat): (r: seq<string>)
    ensures |r| == n && forall k :: 0 <= k < n ==> r[k] == ""
  {
    if n == 0 then [] else Blanks(n - 1) + [""]
  }

  /** The buffer after the list branch of the walk, given what
      `Markdown.PreviousParagraph` found before the list and the list
      block's text: with a paragraph that is still the tail of the buffer
      once trailing blank blocks are popped, that tail becomes one block
      holding paragraph and list; otherwise the popped blocks come back
      as empty blocks and the list block is appended on its own. */
  function ListStep(buffer: seq<string>, prev: (Option<seq<string>>, nat), listText: string): seq<string> {
    if prev.0.Some? && prev.0.value != [] then
      var para := prev.0.value;
      var t := TrimBlankTail(buffer);
      if |t| >= |para| && t[|t| - |para|..] == para then
        t[..|t| - |para|] + [Text.Join("\n", para) + MergeSeparator(prev.1) + listText]
      else
        t + Blanks(|buffer| - |t|) + [listText]
    else
      buffer + [listText]
  }

  /** The list branch keeps every word: the new buffer's estimate is the
      old one plus the list block's, whether or not a paragraph merged. */
  lemma {:induction false} ListStepTokens(buffer: seq<string>, prev: (Option<seq<string>>, nat), listText: string)
    ensures Text.SumTokens(ListStep(buffer, prev, listText)) == Text.SumTokens(buffer) + Text.EstimateTokens(listText)
  {
    if prev.0.Some? && prev.0.value != [] {
      var para := prev.0.value;
      var t := TrimBlankTail(buffer);
      assert buffer == t + buffer[|t|..];
      Text.SumTokensConcat(t, buffer[|t|..]);
      SumTokensBlank(buffer[|t|..]);
      if |t| >= |para| && t[|t| - |para|..] == para {
        var front := t[..|t| - |para|];
        var j := Text.Join("\n", para);
        assert t == front + para;
        Text.SumTokensConcat(front, para);
        Text.SumTokensAppend(front, j + MergeSeparator(prev.1) + listText);
        Text.EstimateTokensJoin(para);
        SeparatedTokens(j, prev.1, listText);
      } else {
        var bl := Blanks(|buffer| - |t|);
        Text.SumTokensConcat(t, bl);
        SumTokensBlank(bl);
        Text.SumTokensAppend(t + bl, listText);
      }
    } else {
      Text.SumTokensAppend(buffer, listText);
    }
  }

  /** The separator adds no word. */
  lemma {:induction false} SeparatedTokens(a: string, gap: nat, b: string)
    ensures Text.EstimateTokens(a + MergeSeparator(gap) + b) == Text.EstimateTokens(a) + Text.EstimateTokens(b)
  {
    Text.EstimateTokensNewlineJoin(a, b);
    if gap > 0 {
      assert a + MergeSeparator(gap) + b == a + "\n" + ("" + "\n" + b);
      Text.EstimateTokensNewlineJoin(a, "" + "\n" + b);
      Text.EstimateTokensNewlineJoin("", b);
    }
  }

  /** Blank blocks count no word. */
  lemma {:induction false} SumTokensBlank(bs: seq<string>)
    requires forall k :: 0 <= k < |bs| ==> Text.IsBlank(bs[k])
    ensures Text.SumTokens(bs) == 0
  {
    if bs != [] {
      Text.WordStartsBlank(bs[0], true);
      SumTokensBlank(bs[1..]);
    }
  }

  /** The list branch of the walk: the list block, merged with the
      paragraph before it when `MergeParagraph` finds that paragraph at
      the end of the buffer, appended as one block otherwise. */
  method BufferList(lines: seq<string>, i: nat, buffer: seq<string>) returns (newBuffer: seq<string>, next: nat)
    requires i < |lines| && Markdown.IsListItemStart(lines[i])
    ensures next == Markdown.ListEnd(lines, i)
    ensures newBuffer == ListStep(buffer, Markdown.PreviousParagraph(lines, i), Text.Join("\n", lines[i..next]))
  {
    var listText, nextL := Markdown.ParseListBlock(lines, i);
    var paraLines, gapBlanks := Markdown.CollectPreviousParagraph(lines, i);
    next := nextL;
    if paraLines.Some? && paraLines.value != [] {
      var merged;
      newBuffer, merged := MergeParagraph(buffer, paraLines.value, gapBlanks, listText);
      if !merged {
        newBuffer := newBuffer + [listText];
      }
    } else {
      newBuffer := buffer + [listText];
    }
  }

  /** The contexts the sections were buffered under, in order. */
  function SectionContexts(ss: seq<Section>): (cs: seq<Markdown.Context>)
    ensures |cs| == |ss| && forall j :: 0 <= j < |ss| ==> cs[j] == ss[j].ctx
  {
    if ss == [] then [] else SectionContexts(ss[..|ss| - 1]) + [ss[|ss| - 1].ctx]
  }

  /** The sections the walk closes from line `i` on, with `ctx` the active
      context and `buffer` the blocks gathered since the last heading: a
      heading closes the buffer as a section and updates the context, any
      other line is one `LineStep`, and the end of the document closes the
      last buffer. */
  function Walk(lines: seq<string>, i: nat, ctx: Markdown.Context, buffer: seq<string>): (ss: seq<Section>)
    requires i <= |lines|
    ensures ss != []
    decreases |lines| - i, 1
  {
    if i == |lines| then [Section(ctx, buffer)]
    else if Markdown.IsHeading(lines[i]) then
      var line := lines[i];
      [Section(ctx, buffer)] + Walk(lines, i + 1, Markdown.UpdateContext(ctx, Markdown.HeadingLevel(line), Markdown.HeadingTitle(line)), [])
    else
      WalkOn(lines, i, ctx, buffer)
  }

  /** `Walk` after the `LineStep` at line `i`. */
  function WalkOn(lines: seq<string>, i: nat, ctx: Markdown.Context, buffer: seq<string>): (ss: seq<Section>)
    requires i < |lines|
    ensures ss != []
    decreases |lines| - i, 0
  {
    var step := LineStep(lines, i, buffer);
    Walk(lines, step.1, ctx, step.0)
  }

  /** What the walk keeps true once it reaches line `i`: `closed` are the
      sections it closed, `headings` and `buffer` the open section, `out`
      the chunks of the closed sections, and `heads` the heading lines it
      processed, in order, whose contexts are those of the sections. */
  ghost predicate Walked(lines: seq<string>, budget: int, source: string, i: nat, heads: seq<nat>,
                         closed: seq<Section>, headings: Markdown.Context, buffer: seq<string>, out: seq<Chunk>) {
    && i <= |lines|
    && closed + Walk(lines, i, headings, buffer) == Walk(lines, 0, map[], [])
    && HeadingPositions(lines, heads)
    && Ascending(heads)
    && (heads != [] ==> heads[|heads| - 1] < i)
    && SectionContexts(closed) + [headings] == Contexts(lines, heads)
    && out == SectionChunks(closed, budget, source)
  }

  /** The heading branch of the walk: the buffer is packed into chunks
      under the context it was gathered in, that buffer closes a section,
      and the context takes the heading's level and title. */
  method EnterHeading(lines: seq<string>, i: nat, headings: Markdown.Context, buffer: seq<string>,
                      out: seq<Chunk>, budget: int, source: string, ghost heads: seq<nat>, ghost closed: seq<Section>)
    returns (newHeadings: Markdown.Context, newOut: seq<Chunk>)
    requires i < |lines| && Markdown.IsHeading(lines[i])
    requires Walked(lines, budget, source, i, heads, closed, headings, buffer, out)
    ensures Walked(lines, budget, source, i + 1, heads + [i], closed + [Section(headings, buffer)], newHeadings, [], newOut)
  {
    var line := lines[i];
    newOut := EmitBuffer(buffer, budget, FinalizerFor(headings, source), out);
    SectionsSnoc(closed, Section(headings, buffer), budget, source);
    newHeadings := Markdown.UpdateContext(headings, Markdown.HeadingLevel(line), Markdown.HeadingTitle(line));
    ContextsSnoc(lines, heads, i);
    ghost var rest := Walk(lines, i + 1, newHeadings, []);
    assert Walk(lines, i, headings, buffer) == [Section(headings, buffer)] + rest;
    AppendAssoc(closed, [Section(headings, buffer)], rest);
  }

  lemma {:induction false} WalkedStart(lines: seq<string>, budget: int, source: string)
    ensures Walked(lines, budget, source, 0, [], [], map[], [], [])
  {
    var closed: seq<Section> := [];
    var heads: seq<nat> := [];
    assert HeadingPositions(lines, heads) && Ascending(heads);
    assert SectionContexts(closed) + [map[]] == Contexts(lines, heads);
    assert SectionChunks(closed, budget, source) == [];
    assert closed + Walk(lines, 0, map[], []) == Walk(lines, 0, map[], []);
  }

  /** At the end of the document the open buffer is the last section. */
  lemma {:induction false} WalkedEnd(lines: seq<string>, budget: int, source: string, heads: seq<nat>,
                  closed: seq<Section>, headings: Markdown.Context, buffer: seq<string>, out: seq<Chunk>)
    requires Walked(lines, budget, source, |lines|, heads, closed, headings, buffer, out)
    ensures HeadingPositions(lines, heads) && Ascending(heads)
    ensures closed + [Section(headings, buffer)] == Walk(lines, 0, map[], [])
    ensures SectionContexts(Walk(lines, 0, map[], [])) == Contexts(lines, heads)
    ensures SectionChunks(Walk(lines, 0, map[], []), budget, source)
      == AppendChunks(out, Groups(buffer, budget), FinalizerFor(headings, source))
  {
    SectionsSnoc(closed, Section(headings, buffer), budget, source);
  }

  lemma {:induction false} WalkNonHeading(lines: seq<string>, i: nat, ctx: Markdown.Context, buffer: seq<string>)
    requires i < |lines| && !Markdown.IsHeading(lines[i])
    ensures Walk(lines, i, ctx, buffer) == Walk(lines, LineStep(lines, i, buffer).1, ctx, LineStep(lines, i, buffer).0)
  {
  }

  lemma {:induction false} AppendAssoc(a: seq<Section>, b: seq<Section>, c: seq<Section>)
    ensures a + (b + c) == (a + b) + c
  {
  }

  lemma {:induction false} SectionsSnoc(ss: seq<Section>, s: Section, budget: int, source: string)
    ensures SectionContexts(ss + [s]) == SectionContexts(ss) + [s.ctx]
    ensures SectionChunks(ss + [s], budget, source)
      == AppendChunks(SectionChunks(ss, budget, source), Groups(s.blocks, budget), FinalizerFor(s.ctx, source))
  {
    assert (ss + [s])[..|ss|] == ss;
  }

  lemma {:induction false} ContextsSnoc(lines: seq<string>, hs: seq<nat>, h: nat)
    requires HeadingPositions(lines, hs) && h < |lines| && Markdown.IsHeading(lines[h])
    ensures HeadingPositions(lines, hs + [h])
    ensures Contexts(lines, hs + [h]) == Contexts(lines, hs)
      + [Markdown.UpdateContext(Contexts(lines, hs)[|hs|], Markdown.HeadingLevel(lines[h]), Markdown.HeadingTitle(lines[h]))]
  {
    assert (hs + [h])[..|hs|] == hs;
  }

  /** One iteration of the walk: a heading closes the buffer, any other
      line is buffered by `BufferLine`. */
  method WalkStep(lines: seq<string>, i: nat, headings: Markdown.Context, buffer: seq<string>, out: seq<Chunk>,
                  budget: int, source: string, ghost heads: seq<nat>, ghost closed: seq<Section>)
    returns (next: nat, newHeadings: Markdown.Context, newBuffer: seq<string>, newOut: seq<Chunk>,
             ghost newHeads: seq<nat>, ghost newClosed: seq<Section>)
    requires i < |lines| && Walked(lines, budget, source, i, heads, closed, headings, buffer, out)
    ensures i < next && Walked(lines, budget, source, next, newHeads, newClosed, newHeadings, newBuffer, newOut)
  {
    if Markdown.IsHeading(lines[i]) {
      next, newHeadings, newBuffer, newOut, newHeads, newClosed := HeadingStep(lines, i, headings, buffer, out, budget, source, heads, closed);
    } else {
      next, newHeadings, newBuffer, newOut, newHeads, newClosed := BufferStep(lines, i, headings, buffer, out, budget, source, heads, closed);
    }
  }

  /** The heading branch of the walk, with the walk's whole state. */
  method HeadingStep(lines: seq<string>, i: nat, headings: Markdown.Context, buffer: seq<string>, out: seq<Chunk>,
                     budget: int, source: string, ghost heads: seq<nat>, ghost closed: seq<Section>)
    returns (next: nat, newHeadings: Markdown.Context, newBuffer: seq<string>, newOut: seq<Chunk>,
             ghost newHeads: seq<nat>, ghost newClosed: seq<Section>)
    requires i < |lines| && Markdown.IsHeading(lines[i])
    requires Walked(lines, budget, source, i, heads, closed, headings, buffer, out)
    ensures i < next && Walked(lines, budget, source, next, newHeads, newClosed, newHeadings, newBuffer, newOut)
  {
    newHeadings, newOut := EnterHeading(lines, i, headings, buffer, out, budget, source, heads, closed);
    next, newBuffer, newHeads, newClosed := i + 1, [], heads + [i], closed + [Section(headings, buffer)];
  }

  /** The other branch of the walk: the line is buffered and the open
      section goes on. */
  method BufferStep(lines: seq<string>, i: nat, headings: Markdown.Context, buffer: seq<string>, out: seq<Chunk>,
                    budget: int, source: string, ghost heads: seq<nat>, ghost closed: seq<Section>)
    returns (next: nat, newHeadings: Markdown.Context, newBuffer: seq<string>, newOut: seq<Chunk>,
             ghost newHeads: seq<nat>, ghost newClosed: seq<Section>)
    requires i < |lines| && !Markdown.IsHeading(lines[i])
    requires Walked(lines, budget, source, i, heads, closed, headings, buffer, out)
    ensures newHeadings == headings && newOut == out && newHeads == heads && newClosed == closed
    ensures i < next && Walked(lines, budget, source, next, newHeads, newClosed, newHeadings, newBuffer, newOut)
  {
    WalkedOn(lines, budget, source, i, heads, closed, headings, buffer, out);
    newBuffer, next := BufferLine(lines, i, buffer);
    newHeadings, newOut, newHeads, newClosed := headings, out, heads, closed;
  }

  /** A line that is not a heading keeps the walk's invariant, with the
      buffer and position `LineStep` gives. */
  lemma {:induction false} WalkedOn(lines: seq<string>, budget: int, source: string, i: nat, heads: seq<nat>,
                                    closed: seq<Section>, headings: Markdown.Context, buffer: seq<string>, out: seq<Chunk>)
    requires i < |lines| && !Markdown.IsHeading(lines[i])
    requires Walked(lines, budget, source, i, heads, closed, headings, buffer, out)
    ensures i < LineStep(lines, i, buffer).1
    ensures Walked(lines, budget, source, LineStep(lines, i, buffer).1, heads, closed, headings, LineStep(lines, i, buffer).0, out)
  {
    WalkNonHeading(lines, i, headings, buffer);
  }

  /** `build_chunks_from_markdown(md_text, chunk_size_tokens, source)`:
      the walk over the lines, then the final renumbering. The chunks are
      the packed groups of each section of `Walk` in turn, so no chunk
      takes blocks from both sides of a processed heading, and the ghost
      `heads` are the processed heading lines: section `j` was buffered
      under the context left by the first `j` of them. */
  method BuildChunks(mdText: string, budget: int, source: string)
    returns (chunks: seq<Chunk>, ghost heads: seq<nat>)
    ensures var lines := Text.SplitLines(mdText);
      var sections := Walk(lines, 0, map[], []);
      && HeadingPositions(lines, heads)
      && Ascending(heads)
      && SectionContexts(sections) == Contexts(lines, heads)
      && chunks == Renumber(SectionChunks(sections, budget, source), source)
  {
    var lines := Text.SplitLines(mdText);
    var out;
    out, heads := WalkLines(lines, budget, source);
    chunks := RenumberChunks(out, source);
  }

  /** The walk of `build_chunks_from_markdown` over the lines, before the
      renumbering. */
  method WalkLines(lines: seq<string>, budget: int, source: string)
    returns (out: seq<Chunk>, ghost heads: seq<nat>)
    ensures HeadingPositions(lines, heads)
    ensures Ascending(heads)
    ensures SectionContexts(Walk(lines, 0, map[], [])) == Contexts(lines, heads)
    ensures out == SectionChunks(Walk(lines, 0, map[], []), budget, source)
  {
    out := [];
    var headings: Markdown.Context := map[];
    var bufferBlocks: seq<string> := [];
    heads := [];
    ghost var closed: seq<Section> := [];
    var i := 0;
    WalkedStart(lines, budget, source);
    while i < |lines|
      invariant Walked(lines, budget, source, i, heads, closed, headings, bufferBlocks, out)
      decreases |lines| - i
    {
      i, headings, bufferBlocks, out, heads, closed := WalkStep(lines, i, headings, bufferBlocks, out, budget, source, heads, closed);
    }
    WalkedEnd(lines, budget, source, heads, closed, headings, bufferBlocks, out);
    out := EmitBuffer(bufferBlocks, budget, FinalizerFor(headings, source), out);
  }
}
