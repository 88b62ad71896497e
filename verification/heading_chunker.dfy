/** The heading-only chunker: one record per heading line, carrying the
    heading context that line leaves (the line's own level included, no
    deeper one), its level, the keywords of its title and the title's
    word count; ids are `<file name>-headings-<i>` in document order. */
module HeadingChunker {
  import Text
  import Markdown
  import Keywords
  import Paths
  import Sorting

  datatype HeadingChunk = HeadingChunk(
    chunkId: string,
    text: string,
    headings: seq<(string, string)>,
    headingLevel: nat,
    keywords: seq<string>,
    approxTokens: nat)

  /** The record appended for a heading line, under the context it leaves;
      its id is set by the final loop. */
  function MakeHeadingChunk(line: string, ctx: Markdown.Context): HeadingChunk
    requires Markdown.IsHeading(line)
  {
    var title := Markdown.HeadingTitle(line);
    HeadingChunk("", title, Markdown.HeadingsMeta(ctx), Markdown.HeadingLevel(line),
                 Keywords.ExtractKeywords(title, 5), Text.EstimateTokens(title))
  }

  /** The heading context after the lines: every heading line updates it,
      every other line leaves it alone. */
  function ContextAfter(lines: seq<string>): Markdown.Context {
    if lines == [] then map[]
    else
      var ctx := ContextAfter(lines[..|lines| - 1]);
      var line := lines[|lines| - 1];
      if Markdown.IsHeading(line) then Markdown.UpdateContext(ctx, Markdown.HeadingLevel(line), Markdown.HeadingTitle(line))
      else ctx
  }

  /** The records of the heading lines among `lines`, before numbering. */
  function HeadingChunks(lines: seq<string>): seq<HeadingChunk> {
    if lines == [] then []
    else
      var line := lines[|lines| - 1];
      HeadingChunks(lines[..|lines| - 1]) + (if Markdown.IsHeading(line) then [MakeHeadingChunk(line, ContextAfter(lines))] else [])
  }

  /** The heading lines, in document order. */
  function HeadingLines(lines: seq<string>): (hls: seq<string>)
    ensures forall k :: 0 <= k < |hls| ==> Markdown.IsHeading(hls[k])
  {
    if lines == [] then []
    else
      var line := lines[|lines| - 1];
      HeadingLines(lines[..|lines| - 1]) + (if Markdown.IsHeading(line) then [line] else [])
  }

  /** What every record satisfies on its own: a level from 1 to 6, whose
      `h<level>` entry, holding the record's text, closes the heading
      metadata; the title's word count; at most five distinct keywords,
      each a candidate token of the title. */
  ghost predicate ChunkShape(c: HeadingChunk) {
    && 1 <= c.headingLevel <= 6
    && c.headings != []
    && c.headings[|c.headings| - 1] == ("h" + Text.NatToString(c.headingLevel), c.text)
    && c.approxTokens == Text.EstimateTokens(c.text)
    && |c.keywords| <= 5
    && Sorting.NoDups(c.keywords)
    && (forall k :: 0 <= k < |c.keywords| ==> c.keywords[k] in Keywords.Candidates(c.text))
  }

  /** A heading line's record, under the context the line leaves. */
  lemma {:induction false} MakeHeadingChunkShape(line: string, ctx: Markdown.Context)
    requires Markdown.IsHeading(line)
    ensures var c := MakeHeadingChunk(line, Markdown.UpdateContext(ctx, Markdown.HeadingLevel(line), Markdown.HeadingTitle(line)));
      && ChunkShape(c)
      && c.text == Markdown.HeadingTitle(line) && c.headingLevel == Markdown.HeadingLevel(line)
  {
    var level := Markdown.HeadingLevel(line);
    var title := Markdown.HeadingTitle(line);
    Markdown.HeadingsMetaLast(Markdown.UpdateContext(ctx, level, title), level, title);
    Keywords.ExtractKeywordsCandidates(title, 5);
  }

  /** Exactly one record per heading line, in document order, each with
      that line's title and level; non-heading lines add nothing. */
  lemma {:induction false} HeadingChunksSpec(lines: seq<string>)
    ensures var cs := HeadingChunks(lines);
      var hls := HeadingLines(lines);
      && |cs| == |hls|
      && forall k :: 0 <= k < |cs| ==>
           && cs[k].text == Markdown.HeadingTitle(hls[k])
           && cs[k].headingLevel == Markdown.HeadingLevel(hls[k])
           && ChunkShape(cs[k])
  {
    if lines != [] {
      var init := lines[..|lines| - 1];
      var line := lines[|lines| - 1];
      HeadingChunksSpec(init);
      if Markdown.IsHeading(line) {
        MakeHeadingChunkShape(line, ContextAfter(init));
        var cs, hls := HeadingChunks(lines), HeadingLines(lines);
        var cs0, hls0 := HeadingChunks(init), HeadingLines(init);
        forall k | 0 <= k < |cs|
          ensures cs[k].text == Markdown.HeadingTitle(hls[k]) && cs[k].headingLevel == Markdown.HeadingLevel(hls[k])
          ensures ChunkShape(cs[k])
        {
          if k < |cs0| {
            assert cs[k] == cs0[k] && hls[k] == hls0[k];
          } else {
            assert cs[k] == MakeHeadingChunk(line, ContextAfter(lines)) && hls[k] == line;
          }
        }
      }
    }
  }

  /** The context only ever holds levels 1 to 6. */
  lemma {:induction false} ContextAfterValid(lines: seq<string>)
    ensures Markdown.ValidContext(ContextAfter(lines))
  {
    if lines != [] {
      ContextAfterValid(lines[..|lines| - 1]);
    }
  }

  /** The final ids: `<file name>-headings-<i>`, counting from 1. */
  function Numbered(cs: seq<HeadingChunk>, source: string): (r: seq<HeadingChunk>)
    ensures |r| == |cs|
  {
    seq(|cs|, k requires 0 <= k < |cs| => cs[k].(chunkId := Paths.Name(source) + "-headings-" + Text.NatToString(k + 1)))
  }

  lemma {:induction false} NumberedAt(cs: seq<HeadingChunk>, source: string, k: nat)
    requires k < |cs|
    ensures Numbered(cs, source)[k] == cs[k].(chunkId := Paths.Name(source) + "-headings-" + Text.NatToString(k + 1))
  {
  }

  /** Numbering changes the ids only, and gives no two records the same. */
  lemma {:induction false} NumberedSpec(cs: seq<HeadingChunk>, source: string)
    ensures var r := Numbered(cs, source);
      && (forall k :: 0 <= k < |r| ==> r[k].(chunkId := cs[k].chunkId) == cs[k])
      && (forall j, k :: 0 <= j < k < |r| ==> r[j].chunkId != r[k].chunkId)
  {
    var r := Numbered(cs, source);
    var prefix := Paths.Name(source) + "-headings-";
    forall k | 0 <= k < |r| ensures r[k].(chunkId := cs[k].chunkId) == cs[k] {
      NumberedAt(cs, source, k);
    }
    forall j, k | 0 <= j < k < |r| ensures r[j].chunkId != r[k].chunkId {
      NumberedAt(cs, source, j);
      NumberedAt(cs, source, k);
      Text.NumberedIdsDiffer(prefix, j + 1, k + 1);
    }
  }

  /** One more line that is a heading: it updates the context and
      appends its record. */
  lemma {:induction false} HeadingLineStep(lines: seq<string>, i: nat)
    requires i < |lines| && Markdown.IsHeading(lines[i])
    ensures ContextAfter(lines[..i + 1])
            == Markdown.UpdateContext(ContextAfter(lines[..i]), Markdown.HeadingLevel(lines[i]), Markdown.HeadingTitle(lines[i]))
    ensures HeadingChunks(lines[..i + 1]) == HeadingChunks(lines[..i]) + [MakeHeadingChunk(lines[i], ContextAfter(lines[..i + 1]))]
  {
    assert lines[..i + 1][..i] == lines[..i];
  }

  /** One more line that is not a heading changes nothing. */
  lemma {:induction false} PlainLineStep(lines: seq<string>, i: nat)
    requires i < |lines| && !Markdown.IsHeading(lines[i])
    ensures ContextAfter(lines[..i + 1]) == ContextAfter(lines[..i])
    ensures HeadingChunks(lines[..i + 1]) == HeadingChunks(lines[..i])
  {
    assert lines[..i + 1][..i] == lines[..i];
  }

  /** `build_heading_chunks_from_markdown(md_text, source)`. */
  method BuildHeadingChunks(mdText: string, source: string) returns (chunks: seq<HeadingChunk>)
    ensures chunks == Numbered(HeadingChunks(Text.SplitLines(mdText)), source)
  {
    var lines := Text.SplitLines(mdText);
    var headings: Markdown.Context := map[];
    var cs: seq<HeadingChunk> := [];
    var i := 0;
    while i < |lines|
      invariant i <= |lines|
      invariant headings == ContextAfter(lines[..i]) && cs == HeadingChunks(lines[..i])
    {
      var line := lines[i];
      if Markdown.IsHeading(line) {
        HeadingLineStep(lines, i);
        var level := Markdown.HeadingLevel(line);
        var title := Markdown.HeadingTitle(line);
        headings := Markdown.UpdateContext(headings, level, title);
        cs := cs + [HeadingChunk("", title, Markdown.HeadingsMeta(headings), level,
                                 Keywords.ExtractKeywords(title, 5), Text.EstimateTokens(title))];
      } else {
        PlainLineStep(lines, i);
      }
      i := i + 1;
    }
    assert lines[..i] == lines;
    chunks := NumberChunks(cs, source);
  }

  /** The closing loop that sets every record's id. */
  method NumberChunks(cs: seq<HeadingChunk>, source: string) returns (r: seq<HeadingChunk>)
    ensures r == Numbered(cs, source)
  {
    r := cs;
    var baseName := Paths.Name(source);
    var idx := 0;
    while idx < |r|
      invariant |r| == |cs| && 0 <= idx <= |r|
      invariant forall k :: 0 <= k < idx ==> r[k] == Numbered(cs, source)[k]
      invariant forall k :: idx <= k < |r| ==> r[k] == cs[k]
    {
      NumberedAt(cs, source, idx);
      r := r[idx := r[idx].(chunkId := baseName + "-headings-" + Text.NatToString(idx + 1))];
      idx := idx + 1;
    }
  }
}
