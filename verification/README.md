# A verified model of the document-ingestion pipeline

The repository turns Word, PDF and HTML documents into Markdown. It cuts the
Markdown into chunks that carry their heading context, adds titles and
keywords to the chunks, attaches embeddings and stores them in a Weaviate
collection. This project models the core of that pipeline in Dafny and
proves properties of the model:

- **Markdown helpers** (`Markdown`, `Keywords`): the heading pattern, the
  heading context and its `h<level>` metadata, the table, list and
  previous-paragraph parsers, and `extract_keywords`.
- **The advanced chunker** (`AdvancedChunker`,
  `src/pipeline-advanced/create_chunks.py`): the walk over the lines, the
  buffered blocks, and the greedy packing of a buffer into chunks under a
  word budget. The packing never splits a block, and no chunk spans a
  heading.
- **The simple chunker** (`SimpleChunker`, `src/pipeline/create_chunks.py`),
  including the budget slip recorded under "Findings".
- **The heading chunker** (`HeadingChunker`): one chunk per heading line, holding its title, level, heading context and title keywords; the body text under a heading is not part of any of its chunks.
- **The title prefixer** (`TitlePrefixer`): the deepest heading is put in
  front of the chunk text.
- **The keyword scripts**:
  - the LLM keyword sanitiser and line loop (`LlmKeywords`);
  - the spaCy candidate scoring and selection (`SpacyKeywords`);
  - the chat loop with tool calls (`ToolLoop`).
- **The HTML to Markdown converter** (`HtmlAssembly`).
- **The image describer** (`ImageDescriptions`).
- **The embedding writer** (`Embeddings`).
- **The chunk inventory of the vector store** (`ChunkCounts`).

Shared modules:

- `Text` holds the Python string operations the code relies on.
- `Json` holds a JSON value with insertion-ordered objects.
- `Paths` holds `os.path`/`pathlib` name handling.
- `Sorting` holds a stable sort by key.
- `Wrappers` holds `Option` and `Result`.

Loops that the source runs step by step are methods with loop invariants.
Each method is proved equal to a specification function, and the lemmas
state what that function promises. The following are parameters of the
model, not code in it:

- the LLM and chat endpoints;
- the spaCy pipeline;
- the embedding model;
- the image converters;
- the Weaviate client.


## Model

| member | source | states |
|---|---|---|
| AdvancedChunker.PackPrefixInvariant | src/pipeline-advanced/create_chunks.py:260-270 | After any prefix of the buffer, the closed groups plus the open group are exactly the blocks seen, in order; every closed group is full; the running `approx` is the open group's word count. |
| AdvancedChunker.GroupsSpec | src/pipeline-advanced/create_chunks.py:260-273 | The packing takes every block once and in order, so the groups concatenate back to the buffer. Each group of two or more blocks fits the budget. Each group would overflow with the next group's first block. There are no groups exactly when there are no blocks. |
| AdvancedChunker.GreedyGroupsUnique | src/pipeline-advanced/create_chunks.py:260-273 | The packing is the only in-order grouping that obeys that greedy rule, so the budget alone decides the chunk boundaries. |
| AdvancedChunker.AppendChunksSpec | src/pipeline-advanced/create_chunks.py:243-258 | Chunks already emitted stay as they are. Group `k` becomes the chunk numbered `len(chunks)+1` at the moment it is finalised. |
| AdvancedChunker.MakeChunkSpec | src/pipeline-advanced/create_chunks.py:243-258 | `finalize_one`: the text is the stripped line-feed join of the group; `approx_tokens` is the group's total word count; the headings are the context's `h<level>` metadata; there are at most five keywords, each a keyword candidate. |
| AdvancedChunker.EmitBuffer | src/pipeline-advanced/create_chunks.py:233-275 | `emit_buffer_as_chunks` appends one chunk per group of the greedy packing of the buffer, numbered on from the chunks already there. |
| AdvancedChunker.PackBlock | src/pipeline-advanced/create_chunks.py:260-270 | One block of the packing loop (flush when the block would overflow a non-empty group, then add it whole) keeps the loop's invariant. |
| AdvancedChunker.BlankBufferChunks | src/pipeline-advanced/create_chunks.py:233-273 | A non-empty buffer of blank blocks is not skipped. It still yields at least one chunk, and every such chunk has empty text. |
| AdvancedChunker.TrimBlankTail | src/pipeline-advanced/create_chunks.py:314-317 | The popped buffer is a prefix of the buffer. Everything popped is blank, and what is left does not end in a blank block. |
| AdvancedChunker.PopBlankTail | src/pipeline-advanced/create_chunks.py:314-317 | The pop loop leaves exactly `TrimBlankTail(buffer)` and counts the blocks it removed. |
| AdvancedChunker.MergeParagraph | src/pipeline-advanced/create_chunks.py:313-330 | A merge happens exactly when the popped buffer ends with the paragraph's lines. It then replaces them by one block: paragraph, blank-line or line-feed separator (by the gap), then the list. Otherwise the popped blanks come back as empty blocks. |
| AdvancedChunker.ListStepTokens | src/pipeline-advanced/create_chunks.py:306-334 | The list branch loses and invents no word: the buffer's estimate grows by exactly the list block's, merged or not. |
| AdvancedChunker.BufferList | src/pipeline-advanced/create_chunks.py:306-334 | The list branch resumes at the end of the list block. Its buffer is the one `ListStep` gives for the previous paragraph and the list text. |
| AdvancedChunker.LineStep | src/pipeline-advanced/create_chunks.py:298-338 | A line that is not a heading always moves the walk forward and never past the end. |
| AdvancedChunker.BufferLine | src/pipeline-advanced/create_chunks.py:298-338 | The table, list and plain-line branches, in the source's order, give the next index and the new buffer. |
| AdvancedChunker.RenumberSpec | src/pipeline-advanced/create_chunks.py:344-345 | Renumbering sets chunk `k`'s id to `<stem>-<k+1>` and leaves text, headings, keywords and estimate unchanged. |
| AdvancedChunker.RenumberDistinct | src/pipeline-advanced/create_chunks.py:344-345 | After renumbering, no two chunks share an id. |
| AdvancedChunker.RenumberChunks | src/pipeline-advanced/create_chunks.py:344-345 | The renumbering loop computes `Renumber`. |
| AdvancedChunker.Walk | src/pipeline-advanced/create_chunks.py:277-341 | The walk closes at least one section: the one open at the end of the document. |
| AdvancedChunker.EnterHeading | src/pipeline-advanced/create_chunks.py:280-296 | The heading branch closes the buffer as a section under the old context, then takes the new context with an empty buffer, keeping the walk's invariant. |
| AdvancedChunker.WalkStep | src/pipeline-advanced/create_chunks.py:277-338 | Every step moves forward and keeps the walk's invariant. The invariant relates the emitted chunks, the closed sections and the heading positions to `Walk`. |
| AdvancedChunker.WalkNonHeading | src/pipeline-advanced/create_chunks.py:298-338 | Outside headings, the walk from a line is the walk from where `LineStep` resumes, with the new buffer. |
| AdvancedChunker.WalkedEnd | src/pipeline-advanced/create_chunks.py:340-341 | At the end of the lines, the final flush makes the chunks of every section of `Walk`. The heading positions are ascending heading lines, and section `j` carries the context left by the first `j` headings. |
| AdvancedChunker.ContextsSnoc | src/pipeline-advanced/create_chunks.py:280-296 | Each heading line updates the context by its level and its stripped title. |
| AdvancedChunker.WalkLines | src/pipeline-advanced/create_chunks.py:277-341 | The walk emits the chunks of every section of `Walk`, in order. Each section is chunked under the context its heading left. |
| AdvancedChunker.BuildChunks | src/pipeline-advanced/create_chunks.py:209-347 | `build_chunks_from_markdown` gives the chunks of every section in document order, each under the heading context it was written in, renumbered `<stem>-1..n`. |
| AdvancedChunker.HeadingStep | src/pipeline-advanced/create_chunks.py:282-296 | A heading line flushes the buffer, then sets its level in the context and drops the deeper levels, and the walk's invariant still holds on the next line. |
| AdvancedChunker.BufferStep | src/pipeline-advanced/create_chunks.py:298-338 | A non-heading line (table, list, paragraph merge or plain line) moves the index forward and keeps the walk's invariant. |
| Markdown.HeadingLevel | src/pipeline-advanced/create_chunks.py:64 | A heading line's level is its number of leading `#`, between 1 and 6. |
| Markdown.UpdateContext | src/pipeline-advanced/create_chunks.py:286-295 | The heading's level maps to its title. Shallower levels are kept as they were and deeper levels are dropped. A context of levels 1 to 6 stays one. |
| Markdown.LevelsSpec | src/pipeline-advanced/create_chunks.py:226-231 | `sorted(headings.keys())`: the levels of the context, strictly ascending, each between 1 and 6, and no others. |
| Markdown.HeadingsMetaLast | src/pipeline-advanced/create_chunks.py:226-231 | Just after a heading, the last metadata entry is `h<level>` mapped to that heading's title. |
| Markdown.NonEmptyColumnsMembers | src/pipeline-advanced/create_chunks.py:108-112 | A row contributes a cell for exactly its non-empty values. |
| Markdown.NonEmptyColumnsAscending | src/pipeline-advanced/create_chunks.py:108-112 | The cells come in column order. |
| Markdown.RowCellsSpec | src/pipeline-advanced/create_chunks.py:108-114 | One cell per non-empty value, in column order. Each cell is `<key>: <value>`, where the key is the header of that column or `col<n>` past the headers. |
| Markdown.RenderRowCells | src/pipeline-advanced/create_chunks.py:109-112 | The inner `enumerate(row)` loop builds exactly `RowCells`. |
| Markdown.TableTextPrefix | src/pipeline-advanced/create_chunks.py:119 | Every rendered table starts with `TABLE:` and a line feed, so a table is never mistaken for an empty result. |
| Markdown.RenderTable | src/pipeline-advanced/create_chunks.py:106-119 | The rendering loop gives `TableText`: the non-empty rendered rows joined by line feeds, or the header row joined by ` \| ` when no row has a value. |
| Markdown.TableEndSpec | src/pipeline-advanced/create_chunks.py:94-96 | The table body is the maximal run of lines containing `\|` after the separator. |
| Markdown.CollectTableRows | src/pipeline-advanced/create_chunks.py:94-96 | The row loop collects exactly that run and stops at its end. |
| Markdown.ParseTableBlock | src/pipeline-advanced/create_chunks.py:67-122 | The result is empty exactly when no table starts at the line: out of range, no `\|` in the header, no next line, or a separator line that does not match. Then the index is unchanged. Otherwise the walk resumes after the last body row, and the text renders the split header and rows. |
| Markdown.ListItemStartNotEmpty | src/pipeline-advanced/create_chunks.py:125-126 | A list item start is never an empty line. |
| Markdown.ListEndSpec | src/pipeline-advanced/create_chunks.py:142-155 | The list block is the maximal run of item starts and indented continuations. A blank line that is not itself a continuation belongs to the block only when the line after it continues the list, so the block never ends on such a bridging blank; a whitespace-only line that starts with a tab is a continuation and can end it. |
| Markdown.ParseListBlock | src/pipeline-advanced/create_chunks.py:131-157 | The text is empty exactly when no list item starts at the line, and then the index is unchanged. Otherwise it is the block's lines joined by line feeds, and the walk resumes at its end. |
| Markdown.CollectListLines | src/pipeline-advanced/create_chunks.py:142-155 | The collecting loop takes exactly the lines up to `ListEnd`. |
| Markdown.LastNonBlankBefore | src/pipeline-advanced/create_chunks.py:167-171 | Either every line before the list is blank, or the result is the last non-blank line, with only blanks after it. |
| Markdown.SkipBlankLinesBack | src/pipeline-advanced/create_chunks.py:166-171 | The backward blank-skipping loop finds that line and counts the blank lines it skipped. |
| Markdown.ParagraphStart | src/pipeline-advanced/create_chunks.py:180-185 | The paragraph starts after the nearest blank line above it, or at the top of the file, and holds no blank line. |
| Markdown.FindParagraphStart | src/pipeline-advanced/create_chunks.py:180-185 | The backward loop over non-blank lines finds `ParagraphStart`. |
| Markdown.PreviousParagraphSpec | src/pipeline-advanced/create_chunks.py:160-188 | A paragraph is returned exactly when the nearest non-blank line above the list is neither a heading nor a list item start. Then it is the block of non-blank lines ending there, and the gap counts the blank lines between it and the list. Otherwise the result is `(None, 0)`: every earlier line is blank, or the nearest non-blank one is a heading or an item. |
| Markdown.ParagraphFound | src/pipeline-advanced/create_chunks.py:177-188 | When the nearest non-blank line is plain text, the paragraph and the gap are exactly those lines and the blanks after them. |
| Markdown.CollectPreviousParagraph | src/pipeline-advanced/create_chunks.py:160-188 | `_collect_previous_paragraph` computes `PreviousParagraph`. |
| Keywords.RunLength | src/pipeline-advanced/create_chunks.py:200 | One `findall` match is the maximal run of characters of the class `[A-Za-zÀ-ÖØ-öø-ÿ0-9\-]` at that position. |
| Keywords.Tokens | src/pipeline-advanced/create_chunks.py:200 | Every token found is a non-empty run of that class. |
| Keywords.FilterSpec | src/pipeline-advanced/create_chunks.py:201 | The filter keeps exactly the tokens of three or more characters that are neither stop words nor all digits, in their order. |
| Keywords.Distinct | src/pipeline-advanced/create_chunks.py:202 | The `Counter` keys: each candidate once, and nothing else. |
| Keywords.DistinctOrder | src/pipeline-advanced/create_chunks.py:202 | The `Counter` keys keep the order of first occurrence. |
| Keywords.ExtractKeywordsIsPrefix | src/pipeline-advanced/create_chunks.py:203-206 | `most_common(top_n)` is a prefix of the full ranking: exactly `top_n` keywords, or all of them when there are fewer. |
| Keywords.ExtractKeywordsCandidates | src/pipeline-advanced/create_chunks.py:191-206 | At most `top_n` keywords, with no repeats, each a candidate token of the lowered text. |
| Keywords.ExtractKeywordsOrder | src/pipeline-advanced/create_chunks.py:202-205 | Keywords come by decreasing count. Equal counts come in order of first occurrence, as `Counter.most_common` breaks ties. |
| Keywords.ExtractKeywordsComplete | src/pipeline-advanced/create_chunks.py:202-205 | A candidate that is left out means the list is full, and it occurs no more often than the last keyword kept. |
| Sorting.IndexOf | src/pipeline-advanced/create_chunks.py:202 | The position of the first occurrence. |
| Sorting.SortByKey | src/pipeline-advanced/create_chunks.py:205 | The stable sort returns a permutation of its input. |
| Sorting.SortByKeySorted | src/pipeline-advanced/create_chunks.py:205 | The result is ordered by key and has the same multiset of elements. |
| Sorting.SortByKeyStable | src/pipeline-advanced/create_chunks.py:205 | Equal keys keep their input order, as Python's stable sort keeps them. |
| Sorting.SortByKeyNoDups | src/pipeline-advanced/create_chunks.py:205 | Sorting does not create duplicates. |
| Paths.LastIndex | src/pipeline-advanced/weaviate_infos.py:40 | The position of the last occurrence of the character, or none when it does not occur. |
| Paths.SplitExt | src/pipeline-advanced/describe_images.py:217 | `os.path.splitext`: base plus extension give back the path. The extension is empty or a `.` followed by neither `/` nor `.`. |
| Paths.NameSpec | src/pipeline-advanced/create_chunks.py:250 | `Path(source).name` is the final component of the path: it contains no `/` and ends the path. A path without `/` is its own name. |
| Paths.StemSuffix | src/pipeline-advanced/create_chunks.py:345 | `Path(source).stem` is the name, or the name cut before its last `.`, provided that dot is neither the first nor the last character. |
| Json.Get | src/pipeline-advanced/process_chunks_add_title.py:76-77 | `obj.get(key)` finds a value exactly when the key is one of the object's keys. |
| Json.SetGet | src/pipeline-advanced/update_keywords_with_llm.py:180 | After `obj[key] = v`, the key reads `v` and every other key reads as before. |
| Json.SetKeys | src/pipeline-advanced/update_keywords_with_llm.py:180 | Assigning an existing key keeps the key order. A new key is appended at the end, as Python dicts keep insertion order. |
| Json.SetDistinct | src/pipeline-advanced/update_keywords_with_llm.py:180 | An object keeps its keys distinct through assignment. |
| Json.StrArray | src/pipeline-advanced/update_keywords_with_llm.py:180 | A list of strings becomes a JSON array of the same strings, in order. |
| LlmKeywords.ComputeBaseUrlNoSlash | src/pipeline-advanced/update_keywords_with_llm.py:34-46 | The base URL never ends in `/`. |
| LlmKeywords.ComputeBaseUrlLocal | src/pipeline-advanced/update_keywords_with_llm.py:35-44 | An unset or blank `OLLAMA_HOST` gives `http://localhost:11434`. |
| LlmKeywords.ComputeBaseUrlBare | src/pipeline-advanced/update_keywords_with_llm.py:39-46 | A host without a scheme gets `http://` and the default port 11434. |
| LlmKeywords.ComputeBaseUrlScheme | src/pipeline-advanced/update_keywords_with_llm.py:40-46 | A host with a scheme is used as it is, minus its trailing slashes, so the URL is a prefix of the stripped host. |
| LlmKeywords.LabelLength | src/pipeline-advanced/update_keywords_with_llm.py:98 | A matched `mots-clés:`/`keywords:` label ends after its colon and the spaces that follow it. |
| LlmKeywords.BulletLength | src/pipeline-advanced/update_keywords_with_llm.py:97 | A matched bullet or index prefix is not empty and swallows the spaces after it. |
| LlmKeywords.DigitsFrom | src/pipeline-advanced/update_keywords_with_llm.py:97 | `\d+` stops at the first character that is not a digit. |
| LlmKeywords.NoColonNoLabel | src/pipeline-advanced/update_keywords_with_llm.py:119 | Text without a colon never loses a label. |
| LlmKeywords.NoBullet | src/pipeline-advanced/update_keywords_with_llm.py:121 | Text that starts with neither a space, a digit nor a bullet character keeps its start. |
| LlmKeywords.IndexBullet | src/pipeline-advanced/update_keywords_with_llm.py:121 | `<n>. ` is removed from the front of a keyword. |
| LlmKeywords.NormalizeClean | src/pipeline-advanced/update_keywords_with_llm.py:116-126 | Normalising leaves an already clean keyword unchanged. |
| LlmKeywords.NormalizeBulleted | src/pipeline-advanced/update_keywords_with_llm.py:116-126 | `- k` normalises to `k`. |
| LlmKeywords.NormalizeIndexed | src/pipeline-advanced/update_keywords_with_llm.py:116-126 | `<n>. k` normalises to `k`. |
| LlmKeywords.NormalizeQuoted | src/pipeline-advanced/update_keywords_with_llm.py:116-126 | `"k"` normalises to `k`. |
| LlmKeywords.NormalizeLabelled | src/pipeline-advanced/update_keywords_with_llm.py:116-126 | `keywords: k` normalises to `k`. |
| LlmKeywords.TryParseJsonArray | src/pipeline-advanced/update_keywords_with_llm.py:101-113 | There are items exactly when the stripped answer decodes to a JSON list, one item per element. |
| LlmKeywords.SanitizeLoop | src/pipeline-advanced/update_keywords_with_llm.py:144-158 | The `for raw in items` loop with `seen`, `continue` and `break` computes `Sanitized`. |
| LlmKeywords.ExtractKeywordsFromResponse | src/pipeline-advanced/update_keywords_with_llm.py:129-158 | `_extract_keywords_from_response` computes `KeywordsFromResponse`. |
| LlmKeywords.SanitizedDistinct | src/pipeline-advanced/update_keywords_with_llm.py:144-156 | Kept keywords are non-empty and pairwise different ignoring case. There are at most `max_keywords` of them, or one when the cap is below one, because the cap is checked after the append. |
| LlmKeywords.SanitizedFirstSpelling | src/pipeline-advanced/update_keywords_with_llm.py:146-154 | Every kept keyword is the normal form of some item, spelled as the first item with that lowered form. |
| LlmKeywords.SanitizedComplete | src/pipeline-advanced/update_keywords_with_llm.py:146-156 | Unless the cap stopped the loop, every item with a non-empty normal form is represented, ignoring case. |
| LlmKeywords.KeywordsFromResponseEmpty | src/pipeline-advanced/update_keywords_with_llm.py:133-142 | An empty answer, or one that is not a JSON list, gives no keyword. |
| LlmKeywords.BuildPrompt | src/pipeline-advanced/update_keywords_with_llm.py:161-162 | The prompt is the fixed French instruction followed by the chunk text. |
| LlmKeywords.NewKeywordsSpec | src/pipeline-advanced/update_keywords_with_llm.py:165-181 | A blank text gets no keyword. Otherwise there are at most 20 keywords, none empty, and no two equal ignoring case. |
| LlmKeywords.ProcessObjFields | src/pipeline-advanced/update_keywords_with_llm.py:165-181 | Only `keywords` changes; every other field reads as before. `keywords` holds the new list, and it is appended as the last key when it was absent. |
| LlmKeywords.ProcessObjPrompts | src/pipeline-advanced/update_keywords_with_llm.py:170-176 | The model is asked at most once per record, and never for a blank text. |
| LlmKeywords.RouteLineSpec | src/pipeline-advanced/update_keywords_with_llm.py:197-212 | A line is written back verbatim exactly when it is blank, not JSON or not an object. An object is written as `_process_obj` leaves it. |
| LlmKeywords.RouteAllSpec | src/pipeline-advanced/update_keywords_with_llm.py:197-212 | One output line per input line, in order, each routed on its own. |
| LlmKeywords.RouteAllPrompts | src/pipeline-advanced/update_keywords_with_llm.py:197-212 | At most one model call per input line. |
| LlmKeywords.RouteLines | src/pipeline-advanced/update_keywords_with_llm.py:197-212 | The line loop of `main` computes `RouteAll` with the real processor. |
| ToolLoop.SubquerySpec | src/pipeline-advanced/tool.py:36-42 | The `subquery` tool upper-cases: applying it twice changes nothing more, and its result has no ASCII lower-case letter. |
| ToolLoop.BuildBaseUrl | src/pipeline-advanced/tool.py:45-54 | The server is stripped and loses its trailing slashes. A URL with a scheme is kept; a bare host becomes `http://<host>:11434`. |
| ToolLoop.BuildBaseUrlHost | src/pipeline-advanced/tool.py:45-54 | A clean bare host gives `http://<host>:11434`. |
| ToolLoop.ExtractToolCalls | src/pipeline-advanced/tool.py:112-128 | A message that is not an object has no calls. A `tool_calls` list is used when present; otherwise a `tool_call` list; any calls come from one of these two fields. |
| ToolLoop.ParseArgs | src/pipeline-advanced/tool.py:131-143 | An object is kept. A string is decoded, or wrapped as `{"text": raw}` when it does not decode. Anything else gives `{}`. A result that is not an object can only come from decoding a string. |
| ToolLoop.RunToolCallSpec | src/pipeline-advanced/tool.py:180-202 | `subquery` with object arguments answers the upper-cased `text`. `subquery` whose arguments decode to a non-object raises. Any other name answers `Erreur: outil non supporté '<name>'`. |
| ToolLoop.RunToolCallMalformed | src/pipeline-advanced/tool.py:181 | A call that is not an object, or whose truthy `function` is not an object, raises. A missing or falsy `function` gives the unsupported-tool message with name `None`. |
| ToolLoop.RawArgumentsAsText | src/pipeline-advanced/tool.py:137-142 | Arguments that do not decode are upper-cased as the text itself. |
| ToolLoop.CallIdSpec | src/pipeline-advanced/tool.py:192-200 | The tool message carries `tool_call_id` exactly when the call has a non-empty string `id`, and then carries that id. |
| ToolLoop.RunToolCallsSpec | src/pipeline-advanced/tool.py:180-202 | The calls run in order, one tool message each. The round raises exactly when one of them raises. |
| ToolLoop.AppendToolMessages | src/pipeline-advanced/tool.py:180-202 | The inner loop appends exactly those tool messages to the history, or raises when `RunToolCalls` does. |
| ToolLoop.RespondAppends | src/pipeline-advanced/tool.py:170-213 | A round with tool calls only appends to the history. A final answer is truthy and appended as the last assistant message. |
| ToolLoop.ToolRoundSpec | src/pipeline-advanced/tool.py:171-205 | A tool round appends the assistant message carrying the calls, then one tool message per call in call order, and asks again. |
| ToolLoop.FinalRoundSpec | src/pipeline-advanced/tool.py:207-216 | Without tool calls, non-empty content ends the loop with that reply appended. Empty content stops it with no reply and the history unchanged. |
| ToolLoop.RunFromChain | src/pipeline-advanced/tool.py:158-205 | Each request sends a strictly longer extension of the previous one, so no message is ever removed. |
| ToolLoop.RepliedSpec | src/pipeline-advanced/tool.py:208-210 | A reply is truthy and is the last message of the history. |
| ToolLoop.RunChatSpec | src/pipeline-advanced/tool.py:146-216 | `run_chat` sends between one and five requests. The first holds only the user message, every request is a prefix of the final history, and a reply closes the history. |
| ToolLoop.ExitCodeSpec | src/pipeline-advanced/tool.py:228-245 | Exit code 0 exactly when there is a reply, 1 exactly when the chat raised, 2 exactly when no reply came. |
| ToolLoop.ChatOnce | src/pipeline-advanced/tool.py:159-213 | One pass of the `for` body computes `Step`. |
| ToolLoop.RunChatLoop | src/pipeline-advanced/tool.py:146-216 | The bounded loop yields `RunChat`'s outcome, history and number of requests. |
| Text.LStrip | src/pipeline-advanced/create_chunks.py:170 | `str.lstrip()` removes exactly the leading whitespace. |
| Text.RStrip | src/pipeline-advanced/create_chunks.py:170 | `str.rstrip()` removes exactly the trailing whitespace. |
| Text.StripSpec | src/pipeline-advanced/create_chunks.py:170 | `strip()` gives the empty string exactly for a blank string. Otherwise the result starts and ends with a non-space. |
| Text.StripIdempotent | src/pipeline-advanced/process_chunks_add_title.py:47 | Stripping twice is stripping once. |
| Text.TrimStart | src/pipeline-advanced/create_chunks.py:99 | `lstrip(chars)` removes exactly the leading characters of the set. |
| Text.TrimEnd | src/pipeline-advanced/tool.py:51 | `rstrip(chars)` removes exactly the trailing characters of the set. |
| Text.SplitOn | src/pipeline-advanced/create_chunks.py:99 | `split("\|")` gives at least one part, no part holds the separator, and joining the parts with it gives the string back. |
| Text.JoinAppend | src/pipeline-advanced/create_chunks.py:119 | Joining one more part adds the separator and the part. |
| Text.SplitLines | src/pipeline-advanced/create_chunks.py:219 | `splitlines()` on line-feed-separated text: no line holds a line feed, the empty text has no line, and joining the lines with line feeds gives the text back, up to one final line feed. |
| Text.WordLength | src/pipeline-advanced/create_chunks.py:57-61 | A word of `split()` is a maximal run of non-whitespace. |
| Text.WordsCount | src/pipeline-advanced/create_chunks.py:57-61 | The words of `split()` are as many as the places where a non-space follows a space or the start. |
| Text.EstimateTokensWords | src/pipeline-advanced/create_chunks.py:57-61 | `estimate_tokens` is the number of words of `split()`. |
| Text.EstimateTokensJoin | src/pipeline-advanced/create_chunks.py:262-273 | Joining blocks with line feeds neither merges nor splits words, so the estimate of the chunk text is the sum of its blocks' estimates. |
| Text.EstimateTokensStrip | src/pipeline-advanced/create_chunks.py:257 | Stripping does not change the word count. |
| Text.SumTokensConcat | src/pipeline-advanced/create_chunks.py:262-270 | The running estimate over two runs of blocks is the sum of the two. |
| Text.CollapseSpaces | src/pipeline-advanced/update_keywords_with_llm.py:125 | `re.sub(r"\s+", " ", s)`: every whitespace character left is a single space, no two are adjacent, and the result is empty exactly for an empty input. |
| Text.CollapseSpacesClean | src/pipeline-advanced/update_keywords_with_llm.py:125 | Collapsing leaves text whose whitespace is already single spaces unchanged. |
| Text.Lower | src/pipeline-advanced/update_keywords_with_llm.py:150 | `lower()` maps each character on its own and keeps the length. |
| Text.UpperIdempotent | src/pipeline-advanced/tool.py:42 | Upper-casing twice is upper-casing once. |
| Text.UpperNoLower | src/pipeline-advanced/tool.py:42 | An upper-cased string has no ASCII lower-case letter. |
| Text.NatToString | src/pipeline-advanced/create_chunks.py:345 | `str(n)` is a non-empty string of digits. |
| Text.NatToStringRoundTrip | src/pipeline-advanced/create_chunks.py:345 | Reading the digits of `str(n)` back gives `n`. |
| Text.NumberedIdsDiffer | src/pipeline-advanced/create_chunks.py:344-345 | Two different numbers after the same prefix give two different ids. |
| Text.ParseIntDigits | src/pipeline-advanced/process_chunks_add_title.py:41 | `int()` of a digit string is its decimal value. |
| Text.ParseIntNatToString | src/pipeline-advanced/process_chunks_add_title.py:41 | `int(str(n)) == n`. |
| Text.RemoveUnderscores | src/pipeline-advanced/process_chunks_add_title.py:41 | `int()` ignores the underscores between digits; a plain digit string is unchanged. |
| HeadingChunker.HeadingLines | src/pipeline-advanced/create_headings_chunks.py:98-101 | The lines the loop does not skip: the heading lines, in order. |
| HeadingChunker.MakeHeadingChunkShape | src/pipeline-advanced/create_headings_chunks.py:103-125 | A heading's record holds its stripped title and its level from 1 to 6. Its heading metadata ends with `h<level>` mapped to that title, its estimate is the title's word count, and it has at most five distinct keywords taken from the title. |
| HeadingChunker.HeadingChunksSpec | src/pipeline-advanced/create_headings_chunks.py:98-125 | One record per heading line, in document order, each with that line's title and level and the shape above. Other lines add nothing. |
| HeadingChunker.ContextAfterValid | src/pipeline-advanced/create_headings_chunks.py:106-110 | The heading context only ever holds levels 1 to 6. |
| HeadingChunker.NumberedSpec | src/pipeline-advanced/create_headings_chunks.py:127-130 | Record `k` gets the id `<file name>-headings-<k+1>`, nothing else changes, and no two ids are equal. |
| HeadingChunker.NumberChunks | src/pipeline-advanced/create_headings_chunks.py:128-130 | The id loop computes `Numbered`. |
| HeadingChunker.BuildHeadingChunks | src/pipeline-advanced/create_headings_chunks.py:78-132 | `build_heading_chunks_from_markdown` gives the numbered records of `HeadingChunks` over the lines of the text. |
| TitlePrefixer.EntryLevel | src/pipeline-advanced/process_chunks_add_title.py:36-44 | An entry competes exactly when its key is `h` followed by something `int()` reads as 1 to 6 and its value is a non-blank string; otherwise it stays at the initial `best_level` of -1. |
| TitlePrefixer.RunningMaxSpec | src/pipeline-advanced/process_chunks_add_title.py:32-49 | The loop keeps the first entry of the largest qualifying level. It finds nothing exactly when no entry qualifies. |
| TitlePrefixer.DeepestHeading | src/pipeline-advanced/process_chunks_add_title.py:32-49 | The `for key, value in headings.items()` loop computes the running maximum. |
| TitlePrefixer.DeepestHeadingSpec | src/pipeline-advanced/process_chunks_add_title.py:23-49 | For a headings object: the result is the stripped value of the first `h<n>` entry with the largest `n` from 1 to 6 whose value is a non-blank string, and none when there is no such entry. |
| TitlePrefixer.DeepestHeadingNonEmpty | src/pipeline-advanced/process_chunks_add_title.py:78-80 | A deepest heading, when found, is non-empty and already stripped, so `if deepest` holds exactly when one was found. |
| TitlePrefixer.KeyLevelDigits | src/pipeline-advanced/process_chunks_add_title.py:38-43 | A key `h` followed by digits names the level those digits spell. |
| TitlePrefixer.LeadingZeroLevel | src/pipeline-advanced/process_chunks_add_title.py:41 | `int()` accepts leading zeros, so `h0<n>` names level `n`, as `h<n>` does. |
| TitlePrefixer.PrefixedSpec | src/pipeline-advanced/process_chunks_add_title.py:76-81 | Only `text` changes, and in place. It becomes `<deepest>` + blank line + text exactly when it is a string and a deepest heading exists. Otherwise the record is unchanged. |
| TitlePrefixer.ProcessLineSpec | src/pipeline-advanced/process_chunks_add_title.py:63-83 | A line is copied verbatim exactly when it is blank or not JSON. A non-object JSON value stops the run, because it has no `get`. An object is written back with only its text prefixed. |
| TitlePrefixer.ProcessFile | src/pipeline-advanced/process_chunks_add_title.py:63-83 | The line loop computes `ProcessAll`. |
| TitlePrefixer.ProcessAllStops | src/pipeline-advanced/process_chunks_add_title.py:63-83 | Once a line fails, the whole file fails with that line's error. |
| TitlePrefixer.ProcessAllSpec | src/pipeline-advanced/process_chunks_add_title.py:52-85 | A run succeeds exactly when every line does. It then writes one output line per input line, in order, each as `ProcessLine` gives it. |
| TitlePrefixer.OutputPath | src/pipeline-advanced/process_chunks_add_title.py:58 | The output path is the input path followed by `.embeddings.ndjson`. |
| SimpleChunker.PackAsWrittenInvariant | src/pipeline/create_chunks.py:196-204 | The packing loop as written: after any prefix, once a group has been flushed the running estimate stays over the budget. |
| SimpleChunker.GroupsAsWrittenSingletons | src/pipeline/create_chunks.py:196-207 | As written, every group after the first is a single line, whatever the budget. |
| SimpleChunker.AsWrittenSplitsFittingLines | src/pipeline/create_chunks.py:196-207 | Counterexample: lines `a b`, `c`, `d` with budget 2 give three chunks. The greedy rule is broken, because `c` and `d` fit together. |
| SimpleChunker.CorrectedKeepsFittingLines | src/pipeline/create_chunks.py:196-207 | With the estimate restarting after a flush, the same lines give two chunks, `a b` and `c`+`d`. |
| SimpleChunker.EmitBufferAsWritten | src/pipeline/create_chunks.py:165-209 | `emit_buffer_as_chunks` as written appends one chunk per group of `GroupsAsWritten` over the lines of the stripped buffer. |
| SimpleChunker.PackLinesAsWritten | src/pipeline/create_chunks.py:196-207 | The packing loop as written, with its final flush, appends those chunks. |
| SimpleChunker.BufferGroupsEmpty | src/pipeline/create_chunks.py:167-172 | A buffer yields no chunk exactly when its joined text is blank. In particular, a buffer of blank lines yields none. |
| SimpleChunker.BufferGroupsSpec | src/pipeline/create_chunks.py:169-207 | The corrected packing takes every line of the stripped buffer once, in order, under the greedy budget rule, and no packed line holds a line feed. |
| SimpleChunker.EmitBuffer | src/pipeline/create_chunks.py:165-209 | The corrected `emit_buffer_as_chunks` appends one chunk per group of `BufferGroups`. |
| SimpleChunker.LineStep | src/pipeline/create_chunks.py:232-241 | A line that is not a heading moves the walk forward and never past the end. |
| SimpleChunker.LineStepTable | src/pipeline/create_chunks.py:233-237 | A table is taken whole: the walk resumes after its last row, and the rendered table is the one new block. |
| SimpleChunker.BufferLine | src/pipeline/create_chunks.py:232-241 | The table branch, then the plain-line branch, computes `LineStep`. |
| SimpleChunker.EnterHeading | src/pipeline/create_chunks.py:216-230 | The heading branch packs the buffer under the context it was gathered in, then the context takes the new heading, keeping the walk's invariant. |
| SimpleChunker.WalkStep | src/pipeline/create_chunks.py:211-241 | Every step moves forward and keeps the walk's invariant. |
| SimpleChunker.WalkedEnd | src/pipeline/create_chunks.py:243-244 | At the end, the final flush makes the chunks of every section of `Walk`, each under the context left by the headings before it. |
| SimpleChunker.WalkLines | src/pipeline/create_chunks.py:211-244 | The walk emits the chunks of every section of `Walk`, in order, under the right contexts. |
| SimpleChunker.BuildChunks | src/pipeline/create_chunks.py:141-250 | `build_chunks_from_markdown` with the corrected packing gives the chunks of every section in document order, renumbered `<stem>-1..n`. |
| SimpleChunker.HeadingStep | src/pipeline/create_chunks.py:216-230 | A heading line flushes the buffer, then sets its level in the context and drops the deeper levels, and the walk's invariant still holds on the next line. |
| SimpleChunker.BufferStep | src/pipeline/create_chunks.py:232-241 | A table block or a plain line moves the index forward and keeps the walk's invariant. |
| SimpleChunker.PackLineAsWritten | src/pipeline/create_chunks.py:196-204 | One turn of the packing loop as written keeps its invariant: the chunks emitted so far are those of `GroupsAsWritten` over the lines already read. |
| SpacyKeywords.NormalizeTokenClean | src/pipeline-advanced/collect_keywords.py:50-60 | A kept token's lemma, or its text when there is no lemma, is non-empty, stripped and free of capitals. |
| SpacyKeywords.NormalizedSpec | src/pipeline-advanced/collect_keywords.py:44-61 | `_normalize_tokens` keeps at most one word per token, and every kept word is clean. |
| SpacyKeywords.NormalizedAppend | src/pipeline-advanced/collect_keywords.py:50-60 | Normalising works token by token, so normalising a concatenation concatenates the results. |
| SpacyKeywords.NormalizeTokens | src/pipeline-advanced/collect_keywords.py:49-61 | The loop with its four `continue`s computes `Normalized`. |
| SpacyKeywords.RawTokenDefaults | src/pipeline-advanced/collect_keywords_from_md.py:52-63 | The `getattr` variant, with its defaults for missing attributes, normalises a token as the direct variant does on the token with those defaults filled in. |
| SpacyKeywords.NormalizeRawTokens | src/pipeline-advanced/collect_keywords_from_md.py:46-64 | The `getattr` loop computes `Normalized` of the resolved tokens. |
| SpacyKeywords.SlidingNgrams | src/pipeline-advanced/collect_keywords.py:64-66 | There are `len(tokens) - n + 1` windows, or none when the tokens are too few, each of length `n`. |
| SpacyKeywords.SlidingNgramsOverlap | src/pipeline-advanced/collect_keywords.py:64-66 | Consecutive windows overlap by one shift. |
| SpacyKeywords.SlidingNgramsCover | src/pipeline-advanced/collect_keywords.py:64-66 | When there is at least one window, every token lies in some window, at its own position. |
| SpacyKeywords.RemoveSpaces | src/pipeline-advanced/collect_keywords.py:71 | `replace(" ", "")` leaves no space and never lengthens the string. |
| SpacyKeywords.ValidWord | src/pipeline-advanced/collect_keywords.py:69-72 | A single word is a valid phrase exactly when it has three or more characters. |
| SpacyKeywords.ValidPhraseJoin | src/pipeline-advanced/collect_keywords.py:71 | The compacted form of a joined phrase is the words run together. |
| SpacyKeywords.MatchAt | src/pipeline-advanced/collect_keywords.py:80-88 | A quote pattern match advances, and its group is two or more characters holding neither the closing mark nor a line feed. |
| SpacyKeywords.Captures | src/pipeline-advanced/collect_keywords.py:87-88 | Every `finditer` capture has two or more characters and holds neither the closing mark nor a line feed. |
| SpacyKeywords.PhraseOfSpec | src/pipeline-advanced/collect_keywords.py:88-98 | A capture kept as a phrase is a valid phrase of one to three clean words. |
| SpacyKeywords.QuotedNamesSpec | src/pipeline-advanced/collect_keywords.py:75-99 | Every quoted name is a valid phrase of one to three clean words. |
| SpacyKeywords.MarkdownNamesExtendQuoted | src/pipeline-advanced/collect_keywords_from_md.py:78-106 | The Markdown variant finds the quoted names of the plain variant, then the emphasised ones (`**`, `*`, `__`, `_`). |
| SpacyKeywords.ExtractQuotedNames | src/pipeline-advanced/collect_keywords.py:85-99 | The pattern-by-pattern, match-by-match loop computes `QuotedNames`. |
| SpacyKeywords.Bump | src/pipeline-advanced/collect_keywords.py:124 | `candidates[phrase] += w` keeps the order of existing phrases and appends a new one with weight `w`. |
| SpacyKeywords.BumpWeight | src/pipeline-advanced/collect_keywords.py:124 | The bump adds `w` to that phrase's weight and nothing to any other phrase. |
| SpacyKeywords.TallyKeys | src/pipeline-advanced/collect_keywords.py:112-157 | The `Counter` holds each voted phrase once, and nothing else. |
| SpacyKeywords.TallyWeight | src/pipeline-advanced/collect_keywords.py:112-157 | A phrase's count is the sum of its votes. |
| SpacyKeywords.EntityWeight | src/pipeline-advanced/collect_keywords.py:122-123 | Entity votes weigh 3 for `ORG`, `PRODUCT`, `WORK_OF_ART` and `MISC`, and 2 otherwise. |
| SpacyKeywords.Where | src/pipeline-advanced/collect_keywords.py:130 | A token filter keeps only tokens of the input that pass the test. |
| SpacyKeywords.Ngrams | src/pipeline-advanced/collect_keywords.py:149-150 | The n-gram windows have one to three tokens. |
| SpacyKeywords.EntityVotesSpec | src/pipeline-advanced/collect_keywords.py:117-125 | Every entity vote is for a valid phrase of one to three words. |
| SpacyKeywords.ChunkPhrasesSpec | src/pipeline-advanced/collect_keywords.py:128-140 | Every noun-chunk vote is for a valid phrase of at most three words. |
| SpacyKeywords.NgramPhrasesSpec | src/pipeline-advanced/collect_keywords.py:149-157 | Every n-gram vote is for a valid phrase of at most three words. |
| SpacyKeywords.VotesArePhrases | src/pipeline-advanced/collect_keywords.py:109-157 | Every vote of the four sources (entities, noun chunks, quoted names, n-grams) is for a valid phrase. |
| SpacyKeywords.ScoredCandidatesSpec | src/pipeline-advanced/collect_keywords.py:106-166 | A blank text has no candidate. Otherwise every voted phrase appears exactly once, and its score is the sum of its votes plus 0.25 per word beyond the first. |
| SpacyKeywords.SelectionSize | src/pipeline-advanced/collect_keywords.py:171-190 | The selection never keeps more phrases than there are distinct ones. |
| SpacyKeywords.FirstPass | src/pipeline-advanced/collect_keywords.py:172-180 | The first pass keeps the first `max(1, max_kw)` distinct phrases of the ranking, and `seen` holds exactly those. |
| SpacyKeywords.SecondPass | src/pipeline-advanced/collect_keywords.py:183-190 | When the first pass kept fewer than `min_kw`, the second pass extends the selection to the first `min_kw` distinct phrases. |
| SpacyKeywords.SelectKeywords | src/pipeline-advanced/collect_keywords.py:171-192 | The selection is the first `SelectionSize` distinct phrases of the ranking, in ranking order. |
| SpacyKeywords.SelectionForMainBounds | src/pipeline-advanced/collect_keywords.py:284 | With the bounds `main` passes and a ranking without repeats, the result is the first `max(1, max(min, max))` phrases. |
| SpacyKeywords.ResolveModelNames | src/pipeline-advanced/collect_keywords.py:198-203 | Both scripts load the same model for each accepted choice. For anything else, `collect_keywords.py` defaults to medium and `collect_keywords_from_md.py` (lines 183-190) to large. |
| SpacyKeywords.RunLinesTaken | src/pipeline-advanced/collect_keywords.py:272-288 | A loop that raised nothing took one value from each line that gives one, in order. |
| SpacyKeywords.RunLinesFailure | src/pipeline-advanced/collect_keywords.py:272-288 | A loop ended by an exception stopped at the first raising line, with the state it had just before that line. |
| SpacyKeywords.RunLinesStopped | src/pipeline-advanced/collect_keywords.py:289-292 | Once the loop has ended, no further line is read. |
| SpacyKeywords.KeywordLineFields | src/pipeline-advanced/collect_keywords.py:283-287 | A written record changes only `keywords`, which holds the extraction of its text and is appended last when new. |
| SpacyKeywords.KeywordsExit | src/pipeline-advanced/collect_keywords.py:294 | The exit status is 0 exactly when some line was processed, and 1 otherwise, whatever the errors. |
| SpacyKeywords.CollectKeywords | src/pipeline-advanced/collect_keywords.py:269-294 | The loop of `main` computes `RunLines` with the keyword step, and exits with 1 on an exception or with `KeywordsExit`. |
| SpacyKeywords.CountAllSpec | src/pipeline-advanced/collect_keywords_from_md.py:263 | `global_counter` holds exactly the phrases seen, each with its number of occurrences. |
| SpacyKeywords.FrequencyIsChunkCount | src/pipeline-advanced/collect_keywords_from_md.py:261-263 | Because no extraction repeats a phrase, a phrase's global frequency is the number of texts that have it. |
| SpacyKeywords.BestScoresSpec | src/pipeline-advanced/collect_keywords_from_md.py:265-270 | `best_scores` holds exactly the phrases scored, each with its highest score. |
| SpacyKeywords.AddCounts | src/pipeline-advanced/collect_keywords_from_md.py:263 | `global_counter.update(kws)` counts the new phrases on top of the old ones. |
| SpacyKeywords.KeepBest | src/pipeline-advanced/collect_keywords_from_md.py:267-270 | The specificity loop keeps the best score over all texts so far. |
| SpacyKeywords.Aggregate | src/pipeline-advanced/collect_keywords_from_md.py:261-271 | One text adds to the counter in frequency mode, or to the best scores in specificity mode. The other map stays empty. |
| SpacyKeywords.CollectAllExit | src/pipeline-advanced/collect_keywords_from_md.py:275-299 | The exit status is 0 exactly when some text was processed. |
| SpacyKeywords.CollectAll | src/pipeline-advanced/collect_keywords_from_md.py:240-299 | The loop of `main` aggregates the taken texts in the chosen mode, and exits with 1 on an exception or with `CollectAllExit`. |
| SpacyKeywords.LowerStripClean | src/pipeline-advanced/collect_keywords.py:55 | `.strip().lower()` of a token's text, when non-empty, is a clean word. |
| SpacyKeywords.LemmaOfClean | src/pipeline-advanced/collect_keywords.py:56 | A token's lemma, when non-empty, is a clean word. |
| SpacyKeywords.Resolved | src/pipeline-advanced/collect_keywords_from_md.py:52-55 | Each raw token becomes the token with the `getattr` defaults filled in, one for one. |
| SpacyKeywords.JoinedPhraseSpec | src/pipeline-advanced/collect_keywords.py:92-98 | Joining clean words gives a valid phrase whenever the join is kept. |
| SpacyKeywords.PhrasesSpec | src/pipeline-advanced/collect_keywords.py:88-98 | Every phrase built from the captures is valid. |
| SpacyKeywords.AppendKept | src/pipeline-advanced/collect_keywords.py:87-98 | The inner loop appends the kept phrases of the captures, in order, to the names found so far. |
| SpacyKeywords.TallyKeysUnique | src/pipeline-advanced/collect_keywords.py:112-157 | The `Counter` never holds a phrase twice. |
| SpacyKeywords.Weigh | src/pipeline-advanced/collect_keywords.py:143-144 | Every phrase of a source gets the source's weight, in order. |
| SpacyKeywords.WeighPhrases | src/pipeline-advanced/collect_keywords.py:143-144 | Weighing valid phrases gives votes for valid phrases. |
| SpacyKeywords.Scores | src/pipeline-advanced/collect_keywords.py:163-166 | Scoring keeps the candidates and their order, and changes only the weights. |
| SpacyKeywords.FirstPassFull | src/pipeline-advanced/collect_keywords.py:178-180 | When the first pass stops at `max(1, max_kw)`, what it kept is that long a prefix of the distinct ranking. |
| SpacyKeywords.SecondPassNew | src/pipeline-advanced/collect_keywords.py:185-190 | A phrase the second pass adds is the next distinct phrase of the ranking. |
| SpacyKeywords.DistinctNoDups | src/pipeline-advanced/collect_keywords.py:172-190 | A ranking without repeats is its own list of distinct phrases. |
| SpacyKeywords.CountNoDups | src/pipeline-advanced/collect_keywords_from_md.py:263 | Within one extraction without repeats, a phrase occurs once or not at all. |
| HtmlAssembly.IndentEach | src/pipeline-advanced/html_to_markdown.py:67-68 | Every line of a nested list gets the same indentation in front, and nothing else changes. |
| HtmlAssembly.ItemLines | src/pipeline-advanced/html_to_markdown.py:49-78 | An item always renders as at least one line, because `if not sublines` adds a bare marker. |
| HtmlAssembly.ListLines | src/pipeline-advanced/html_to_markdown.py:47-79 | A list renders as at least one line per item. |
| HtmlAssembly.FlatItemLines | src/pipeline-advanced/html_to_markdown.py:72-77 | An item without a nested list renders as exactly one line: indentation, marker and the stripped text of its re-parsed inline buffer. |
| HtmlAssembly.FoldFlat | src/pipeline-advanced/html_to_markdown.py:54-71 | Without a nested list, the child loop only gathers the children's inline texts and keeps the marker. |
| HtmlAssembly.BlankFlushLine | src/pipeline-advanced/html_to_markdown.py:76-77 | An item with blank text renders as its marker alone. |
| HtmlAssembly.FlatListLines | src/pipeline-advanced/html_to_markdown.py:49-79 | The line for item `k` of a flat list is built from item `k` and its index alone. |
| HtmlAssembly.FlatListMarkers | src/pipeline-advanced/html_to_markdown.py:49-77 | Every line of a flat list begins with a list marker as the Markdown reader recognises it (`- ` or `<n>. `). |
| HtmlAssembly.MarkerIsListItemStart | src/pipeline-advanced/html_to_markdown.py:50 | An indented `- ` or `<n>. ` marker followed by anything starts a list item for the Markdown reader. |
| HtmlAssembly.RenderList | src/pipeline-advanced/html_to_markdown.py:47-79 | The list renderer's loops compute `ListLines`. |
| HtmlAssembly.RenderItem | src/pipeline-advanced/html_to_markdown.py:50-78 | The per-item loop computes `ItemLines`. |
| HtmlAssembly.ScanChildren | src/pipeline-advanced/html_to_markdown.py:54-71 | The child loop computes the state that `FoldItem` specifies: lines so far, pending inline buffer and current marker. |
| HtmlAssembly.CellTexts | src/pipeline-advanced/html_to_markdown.py:88-93 | A row gives one text per `th`/`td` cell. |
| HtmlAssembly.Dashes | src/pipeline-advanced/html_to_markdown.py:117 | The separator row has one `---` per header cell. |
| HtmlAssembly.FirstHeaderRow | src/pipeline-advanced/html_to_markdown.py:102-106 | There is no header row exactly when no row has a `th`. Otherwise the header row is a row of the table that has a `th`. |
| HtmlAssembly.RowsWithCells | src/pipeline-advanced/html_to_markdown.py:118-121 | The body keeps exactly the rows of the table that have at least one cell. |
| HtmlAssembly.TableMarkdown | src/pipeline-advanced/html_to_markdown.py:84-86 | A table without rows renders as "". |
| HtmlAssembly.TableShape | src/pipeline-advanced/html_to_markdown.py:95-122 | With header cells: the header line, the separator line, then one line per body row that has cells. Without header cells: the body lines alone. |
| HtmlAssembly.BodyLinesRows | src/pipeline-advanced/html_to_markdown.py:118-121 | The body lines are the rows with cells, one line each, in order. |
| HtmlAssembly.TableToMarkdown | src/pipeline-advanced/html_to_markdown.py:82-122 | The renderer's loop computes `TableMarkdown`. |
| HtmlAssembly.AppendBodyLines | src/pipeline-advanced/html_to_markdown.py:118-121 | The body loop appends one line per row that has cells. |
| HtmlAssembly.SeparatorRecognised | src/pipeline-advanced/html_to_markdown.py:117 | The Markdown table reader accepts the emitted separator line exactly when the header has two or more cells. |
| HtmlAssembly.SplitOnJoin | src/pipeline-advanced/html_to_markdown.py:116 | Splitting at the joining character gives back the parts, when none of them holds that character. |
| HtmlAssembly.QuoteLines | src/pipeline-advanced/html_to_markdown.py:140 | A block quote gives one line per line of its raw text. |
| HtmlAssembly.QuoteLinesShape | src/pipeline-advanced/html_to_markdown.py:140 | A quoted line is `>` for a blank line and `> ` plus the right-stripped line otherwise. It never ends in whitespace. |
| HtmlAssembly.BlockMarkdown | src/pipeline-advanced/html_to_markdown.py:125-154 | A block renders as "" or as text ending in a line feed. A paragraph renders as "" exactly when its text is blank. |
| HtmlAssembly.HeadingReadBack | src/pipeline-advanced/html_to_markdown.py:127-130 | A heading with text renders as `#` times its level, a space and the stripped text. The Markdown reader sees that line as a heading of the same level and title. |
| HtmlAssembly.BlankHeadingNotRead | src/pipeline-advanced/html_to_markdown.py:127-130 | A heading with blank text renders as bare hashes, which the Markdown reader does not take for a heading. |
| HtmlAssembly.BlockToMarkdown | src/pipeline-advanced/html_to_markdown.py:125-154 | The block renderer computes `BlockMarkdown`. |
| HtmlAssembly.NonEmptyParts | src/pipeline-advanced/html_to_markdown.py:171-173 | The parts that are not skipped are the non-empty ones. |
| HtmlAssembly.AssembledSkipsEmpty | src/pipeline-advanced/html_to_markdown.py:171-173 | Empty parts change nothing in the joined text. |
| HtmlAssembly.AppendChunkShape | src/pipeline-advanced/html_to_markdown.py:174-178 | Each step puts at most one line feed before the chunk and at most one after it. |
| HtmlAssembly.AppendChunkEnd | src/pipeline-advanced/html_to_markdown.py:174-178 | After each step the text ends in a line feed, and in a blank line when the chunk ended in a line feed. |
| HtmlAssembly.AssembledEndsInBlankLine | src/pipeline-advanced/html_to_markdown.py:170-178 | When every part is "" or ends in a line feed, the joined text is "" or ends in a blank line. |
| HtmlAssembly.JoinBlocks | src/pipeline-advanced/html_to_markdown.py:170-178 | The join loop computes `Assembled`. |
| HtmlAssembly.CompactFrom | src/pipeline-advanced/html_to_markdown.py:182-191 | Compaction keeps only empty lines and lines of the input. |
| HtmlAssembly.CompactFromSpec | src/pipeline-advanced/html_to_markdown.py:182-191 | Compaction keeps its invariant: at most two empty lines in a row, and a trailing empty run as long as the current blank run, up to two. |
| HtmlAssembly.CompactStepKeeps | src/pipeline-advanced/html_to_markdown.py:184-191 | One step of the compaction loop preserves that invariant. |
| HtmlAssembly.CompactedNoThreeEmpty | src/pipeline-advanced/html_to_markdown.py:181-191 | The compacted lines never hold three empty lines in a row. |
| HtmlAssembly.CompactedKeepsText | src/pipeline-advanced/html_to_markdown.py:182-191 | Compaction keeps every non-blank line, in order, and drops nothing else. |
| HtmlAssembly.Compact | src/pipeline-advanced/html_to_markdown.py:182-191 | The compaction loop computes `Compacted`. |
| HtmlAssembly.RStripAll | src/pipeline-advanced/html_to_markdown.py:180 | Each line is right-stripped, one for one. |
| HtmlAssembly.CollectParts | src/pipeline-advanced/html_to_markdown.py:160-168 | The first loop computes `Parts`: stripped text plus a line feed for non-blank text nodes, and the block rendering for elements. |
| HtmlAssembly.HtmlToMarkdown | src/pipeline-advanced/html_to_markdown.py:157-192 | The converter computes `Convert`. |
| HtmlAssembly.JoinNoFour | src/pipeline-advanced/html_to_markdown.py:192 | Joining lines with no three empty in a row gives a text without four line feeds in a row. |
| HtmlAssembly.JoinCleanEnds | src/pipeline-advanced/html_to_markdown.py:192 | Joining right-stripped lines gives a text where no line ends in whitespace. |
| HtmlAssembly.FinishSpec | src/pipeline-advanced/html_to_markdown.py:192 | `"\n".join(compact).strip() + "\n"` has the output shape when the lines are clean and never three empty in a row. |
| HtmlAssembly.ConvertShape | src/pipeline-advanced/html_to_markdown.py:157-192 | Every conversion has the output shape: no whitespace at either end before one final line feed, no line ending in whitespace, never three empty lines in a row. |
| ImageDescriptions.FindFrom | src/pipeline-advanced/describe_images.py:44 | The first position at or after `i` holding the character, or none when it does not occur there. The `[^\]]*` and `[^)]+` runs end there. |
| ImageDescriptions.SubtypeRunEnd | src/pipeline-advanced/describe_images.py:44 | The end of the longest run of `[a-zA-Z0-9.+-]` starting at `i`. |
| ImageDescriptions.MatchAt | src/pipeline-advanced/describe_images.py:43-45 | A match at `i` ends after `i` and within the text. |
| ImageDescriptions.MatchShape | src/pipeline-advanced/describe_images.py:43-45 | A match covers exactly `![alt](url)`, with no `]` in the alt, no `)` in the URL, and a URL of the form `data:image/<subtype>;base64,<payload>`. |
| ImageDescriptions.MatchImage | src/pipeline-advanced/describe_images.py:43-45 | Conversely, every `![alt](url)` of that form is matched at its `!`, with that alt and URL. |
| ImageDescriptions.ImageMarkdownChars | src/pipeline-advanced/describe_images.py:44 | The layout of `![alt](url)`: where the brackets, parentheses, alt and URL sit. |
| ImageDescriptions.DataImageUrlOf | src/pipeline-advanced/describe_images.py:44 | A non-empty subtype of allowed characters and a non-empty payload form a URL the pattern accepts. |
| ImageDescriptions.VisitGood | src/pipeline-advanced/describe_images.py:205-211 | One replacement keeps the cache consistent: each URL was described once, on its first match, and the cache holds that description. |
| ImageDescriptions.SubFromGood | src/pipeline-advanced/describe_images.py:205-213 | The substitution keeps that consistency, and the describer is called for exactly the URLs matched (and those called before). |
| ImageDescriptions.SubFromGrows | src/pipeline-advanced/describe_images.py:207-210 | The cache only grows, and ends up holding every matched URL. |
| ImageDescriptions.SubFromOut | src/pipeline-advanced/describe_images.py:213 | The output is the text with every match replaced by its URL's cached description. |
| ImageDescriptions.ConvertedSpec | src/pipeline-advanced/describe_images.py:198-213 | The describer is called once per distinct matched URL, in order, and for no other URL. Every match is replaced by its URL's description from the first call, and the rest of the text is copied. |
| ImageDescriptions.NoMatchCopies | src/pipeline-advanced/describe_images.py:213 | Text without a match is copied unchanged. |
| ImageDescriptions.NoImagesUnchanged | src/pipeline-advanced/describe_images.py:198-213 | A document without a data-URL image comes out unchanged and the describer is never called. |
| ImageDescriptions.ParseDataUrl | src/pipeline-advanced/describe_images.py:130 | A parsed data URL has a non-empty MIME type without `;` and a non-empty payload, and the URL is built from exactly those. |
| ImageDescriptions.ParseDataUrlRoundTrip | src/pipeline-advanced/describe_images.py:130 | Building a data URL from a MIME type and a payload and parsing it gives both back. |
| ImageDescriptions.ToPngShape | src/pipeline-advanced/describe_images.py:122-165 | The conversion returns the URL itself or a PNG data URL. |
| ImageDescriptions.PngKept | src/pipeline-advanced/describe_images.py:133-137 | A URL that is already PNG, in any letter case, is returned as is. |
| ImageDescriptions.PngUrlKept | src/pipeline-advanced/describe_images.py:127-165 | A PNG data URL produced by the conversion is left alone by it. |
| ImageDescriptions.ToPngIdempotent | src/pipeline-advanced/describe_images.py:122-165 | Converting twice gives the same URL as converting once. |
| ImageDescriptions.PngPrefixNotParsed | src/pipeline-advanced/describe_images.py:130 | A PNG prefix with an empty payload does not parse as a data URL. |
| ImageDescriptions.DescribeReplySpec | src/pipeline-advanced/describe_images.py:167-195 | A description is never empty and has no whitespace at either end. A non-blank answer gives its stripped content, and a raised call gives an HTML comment. |
| ImageDescriptions.CommentEnds | src/pipeline-advanced/describe_images.py:190-195 | The two fallback comments begin with `<!--` and are stripped. |
| ImageDescriptions.ConvertMarkdownImages | src/pipeline-advanced/describe_images.py:198-213 | The substitution loop with its cache computes `Converted`: the same output and the same sequence of describer calls. |
| ImageDescriptions.OutputPathSpec | src/pipeline-advanced/describe_images.py:216-218 | The output path ends in `-converted.md`, starts with a prefix of the input path and differs from it. |
| Embeddings.ExtractMetaSpec | src/pipeline-advanced/create_embeddings.py:48-57 | `_extract_meta` fails exactly when `metadata` is truthy but not an object (`.get` raises). A missing `metadata` gives no keywords and no headings. Otherwise it gives the `keywords` list, or none when that is not a list, and the `headings` object, or none when that is not an object. |
| Embeddings.TitleEntries | src/pipeline-advanced/create_embeddings.py:112-113 | The entries kept for ordering are exactly the headings entries whose key starts with `h` and whose value is a non-blank string, in order. |
| Embeddings.LevelledOk | src/pipeline-advanced/create_embeddings.py:111-113 | Reading the levels succeeds exactly when every kept key parses as an integer after its `h`. Otherwise `int(k[1:])` raises. |
| Embeddings.LevelledPairs | src/pipeline-advanced/create_embeddings.py:110-114 | The levels read are one `(level, title)` pair per kept entry, in order. |
| Embeddings.SortedLevelsSpec | src/pipeline-advanced/create_embeddings.py:107-117 | The ordered titles exist exactly when the levels parse. They are the titles of a permutation of the pairs that is sorted by level. |
| Embeddings.SortedLevelsStable | src/pipeline-advanced/create_embeddings.py:109-116 | The sort is stable: pairs of equal level keep their order. |
| Embeddings.RowTitles | src/pipeline-advanced/create_embeddings.py:105-119 | Ordering the titles of every row succeeds with one list per row, or stops at the first row that raises. |
| Embeddings.RowTitlesStops | src/pipeline-advanced/create_embeddings.py:105-119 | Once a row has raised, later rows change nothing. |
| Embeddings.FlattenTitles | src/pipeline-advanced/create_embeddings.py:103-119 | The heading loop fails exactly when some row's ordering raises, with that row's error. Otherwise `counts_per_row` holds each row's title count and `flat_headings` all the titles, row after row. |
| Embeddings.Regrouped | src/pipeline-advanced/create_embeddings.py:140-147 | Regrouping gives one group per count. |
| Embeddings.Regroup | src/pipeline-advanced/create_embeddings.py:140-147 | The regrouping loop computes `Regrouped`, with Python's clamping slices. |
| Embeddings.PySlice | src/pipeline-advanced/create_embeddings.py:146 | Within bounds, a Python slice is the sequence slice. |
| Embeddings.RegroupedRoundTrip | src/pipeline-advanced/create_embeddings.py:103-147 | Regrouping the flattened titles by their counts gives back each row's own list. |
| Embeddings.RegroupedSplits | src/pipeline-advanced/create_embeddings.py:140-147 | When the list has as many items as the counts add up to, regrouping splits it into groups of exactly those sizes, and they concatenate back to the list. |
| Embeddings.Texts | src/pipeline-advanced/create_embeddings.py:185-189 | The batch texts are each row's `text`, one for one. |
| Embeddings.ZipRecords | src/pipeline-advanced/create_embeddings.py:149-166 | Zipping gives one record per triple up to the shortest input, or stops at the first row whose metadata raises. |
| Embeddings.ZipWrite | src/pipeline-advanced/create_embeddings.py:149-166 | The write loop over `zip(...)` computes `ZipRecords` up to the shortest of the three lists. |
| Embeddings.ZipRecordsStops | src/pipeline-advanced/create_embeddings.py:150-151 | A row whose metadata raises ends the zip with that error. |
| Embeddings.ZipRecordsFor | src/pipeline-advanced/create_embeddings.py:149-166 | When every row's headings order and the heading vectors are grouped like the titles, zipping succeeds and each record is the one for its row. |
| Embeddings.BatchRecordsSpec | src/pipeline-advanced/create_embeddings.py:82-169 | For an encoder that returns one vector per text, a flush succeeds exactly when every row's headings order. Each row then gets its own record: its id, text, token estimate, keywords, headings, the model and time of the run, and one heading vector per ordered title. |
| Embeddings.EncodeBatch | src/pipeline-advanced/create_embeddings.py:82-169 | `flush_batch` on a non-empty batch computes `BatchRecords`. |
| Embeddings.BatchesSpec | src/pipeline-advanced/create_embeddings.py:188-195 | The batches flushed cover the kept items in order, each non-empty and at most 64 long, all but the last exactly 64. |
| Embeddings.BatchesAppend | src/pipeline-advanced/create_embeddings.py:191-192 | After whole batches, the batching of what follows is independent of what came before. |
| Embeddings.EmitAllFor | src/pipeline-advanced/create_embeddings.py:175-195 | When every flush succeeds, the output holds one record per kept item, in order. |
| Embeddings.AcceptedPrefix | src/pipeline-advanced/create_embeddings.py:175-189 | The kept items only grow line by line. |
| Embeddings.AcceptedStops | src/pipeline-advanced/create_embeddings.py:185 | A line that is JSON but not an object stops the read loop at `item.get`. |
| Embeddings.NothingAccepted | src/pipeline-advanced/create_embeddings.py:177-184 | Blank and malformed lines are skipped, so input made only of those keeps nothing. |
| Embeddings.ExpectedRecords | src/pipeline-advanced/create_embeddings.py:175-195 | The whole run writes one record per kept item, in order. |
| Embeddings.FlushFails | src/pipeline-advanced/create_embeddings.py:191-195 | A flush that fails makes the whole run fail. |
| Embeddings.EmbeddingWriter.Push | src/pipeline-advanced/create_embeddings.py:188-189 | Appending a row keeps the written records. |
| Embeddings.EmbeddingWriter.Flush | src/pipeline-advanced/create_embeddings.py:82-169 | An empty flush does nothing. A successful flush appends the batch's records and empties the batch. A failing flush writes nothing more and reports the batch's error. |
| Embeddings.ReadLine | src/pipeline-advanced/create_embeddings.py:176-192 | One line of the read loop keeps the progress invariant: the kept items are whole flushed batches, whose records were written, then the pending rows. A failure means the whole run fails. |
| Embeddings.FlushFull | src/pipeline-advanced/create_embeddings.py:191-192 | Flushing a full batch extends the flushed items by it and keeps the output equal to their records. |
| Embeddings.FinishRun | src/pipeline-advanced/create_embeddings.py:194-195 | The final flush completes the run: success exactly when the specification succeeds, with its records. |
| Embeddings.ConvertChunks | src/pipeline-advanced/create_embeddings.py:60-197 | `convert_chunks_to_embeddings` succeeds exactly when `Expected` does, and then writes exactly `Expected`'s records. |
| ChunkCounts.MatchedPart | src/pipeline-advanced/weaviate_infos.py:40 | The part the pattern sees is the id itself, or the id without the one final line feed that `$` lets through. |
| ChunkCounts.FileFromChunkId | src/pipeline-advanced/weaviate_infos.py:43-51 | A file name found is non-empty and holds no line feed. |
| ChunkCounts.FileFromChunkIdSpec | src/pipeline-advanced/weaviate_infos.py:40-51 | `_file_from_chunk_id` gives `file` exactly when the id reads as `file`, a hyphen and one or more digits, with possibly one final line feed. |
| ChunkCounts.SplitAtLastHyphen | src/pipeline-advanced/weaviate_infos.py:40 | The greedy `.+` makes the file name end at the id's last hyphen. |
| ChunkCounts.TrailingLineFeedIgnored | src/pipeline-advanced/weaviate_infos.py:40 | One final line feed after the digits does not change the result. |
| ChunkCounts.NumberedIdNamesStem | src/pipeline-advanced/weaviate_infos.py:40-51 | The id `<stem>-<n>` of the chunkers names `<stem>` as its file. |
| ChunkCounts.NextCursor | src/pipeline-advanced/weaviate_infos.py:86-90 | There is a next cursor exactly when one of `cursor`, `next_cursor` or `page_info.end_cursor` is truthy. It is never empty. |
| ChunkCounts.PagesFirst | src/pipeline-advanced/weaviate_infos.py:70-94 | The first request's error ends the loop with that error. A last page ends it. Otherwise the loop continues from that page's next cursor. |
| ChunkCounts.PagesChain | src/pipeline-advanced/weaviate_infos.py:67-94 | The pages fetched start at no cursor, and each page but the last holds at least 1000 objects and has a next cursor from which the following page was fetched. The last page stops the loop. |
| ChunkCounts.FileList | src/pipeline-advanced/weaviate_infos.py:77-83 | One file-or-nothing per object. |
| ChunkCounts.CountsBound | src/pipeline-advanced/weaviate_infos.py:64-96 | No more objects are counted per file than in total. |
| ChunkCounts.FilesCount | src/pipeline-advanced/weaviate_infos.py:77-84 | Every object counts toward the total. It counts toward a file exactly when its `chunk_id` is a string that parses to a file name. |
| ChunkCounts.FilesFrom | src/pipeline-advanced/weaviate_infos.py:80-83 | Every file counted comes from some object's `chunk_id`. |
| ChunkCounts.CountPage | src/pipeline-advanced/weaviate_infos.py:77-84 | The object loop adds the page's size to the total and its files to the per-file counts. |
| ChunkCounts.CollectCounts | src/pipeline-advanced/weaviate_infos.py:54-96 | `collect_counts` returns the total and per-file counts of every object on the pages fetched, or the error the client raised. |
| ChunkCounts.BelowIrreflexive | src/pipeline-advanced/weaviate_infos.py:120 | Python's string order never puts a string below itself. |
| ChunkCounts.BelowTransitive | src/pipeline-advanced/weaviate_infos.py:120 | Python's string order is transitive. |
| ChunkCounts.BelowTotal | src/pipeline-advanced/weaviate_infos.py:120 | Python's string order is total. |
| ChunkCounts.SortedSpec | src/pipeline-advanced/weaviate_infos.py:120 | `sorted(per_file.keys())` lists every file exactly once, in ascending order. |
| ChunkCounts.CountLines | src/pipeline-advanced/weaviate_infos.py:120-121 | One output line per file. |
| ChunkCounts.ReportSpec | src/pipeline-advanced/weaviate_infos.py:113-123 | An error prints `Erreur: ...` on stderr and exits with 1. Otherwise the total line comes first, then one `<file> (<count>)` line per file in ascending order, and the exit status is 0. |

## Left out

- Line breaks: `Text.SplitLines` breaks lines only at `\n`. Python's `str.splitlines` also breaks at `\r`, `\v`, `\f`, `\x1c`-`\x1e`, `\x85`, `\u2028` and `\u2029`. It is called at src/pipeline-advanced/create_chunks.py:219, src/pipeline/create_chunks.py:151 and 196, create_headings_chunks.py:85, and html_to_markdown.py:67, 140 and 180. So the following members match the source only on text whose one line break is `\n`: AdvancedChunker.BuildChunks, HeadingChunker.BuildHeadingChunks, HtmlAssembly.NestedStep, HtmlAssembly.ScanChildren, HtmlAssembly.QuoteLines, HtmlAssembly.QuoteLinesShape, HtmlAssembly.Convert, HtmlAssembly.HtmlToMarkdown, HtmlAssembly.ConvertShape, SimpleChunker.BufferLines, SimpleChunker.EmitBufferAsWritten, SimpleChunker.EmitBuffer and SimpleChunker.BuildChunks.
- Digits: `Text.IsDigit` accepts only the ASCII digits, where Python's `\d`, `str.isdigit` and `int()` also accept other Unicode decimal digits. This affects:
  - LlmKeywords.DigitsFrom (the index prefix of a keyword);
  - Embeddings.KeyLevel and TitlePrefixer.KeyLevel, through Text.ParseInt (`int(k[1:])`);
  - ChunkCounts.FileFromChunkId (the `\d+` of the chunk-id pattern);
  - Markdown.DigitRun (the ordered-list marker);
  - Keywords.IsKeywordChar (the digits of the token class).
- Letter case: `Text.LowerChar` and `Text.UpperChar` cover ASCII and Latin-1 letters. Other letters are left unchanged, where Python's `str.lower` and `str.upper` map them. This affects:
  - LlmKeywords.Sanitized and LlmKeywords.SanitizeLoop (the case-insensitive dedupe);
  - Keywords.Candidates and Keywords.ExtractKeywords (lower-casing before counting);
  - SpacyKeywords.NormalizeToken and SpacyKeywords.LowerStripClean;
  - ToolLoop.Subquery (`upper()`);
  - ImageDescriptions.ToPngUrl (the lower-cased MIME type).
- JSON numbers: `Json.Json` holds integers only. A floating-point value in a chunk file is not modelled.
- Python's `str()` and `repr()`: Json.PyStr and Json.Repr quote strings with `'` and escape nothing. Python picks `"` when a string holds `'` and escapes control characters. This affects Embeddings.TextOf, LlmKeywords.ChunkText, LlmKeywords.TryParseJsonArray, ToolLoop.TextArg and ToolLoop.UnknownTool on such values only.
- SimpleChunker.BuildChunks: uses the corrected packing (SimpleChunker.EmitBuffer), not the one written at src/pipeline/create_chunks.py:196-204. The behaviour as written is SimpleChunker.EmitBufferAsWritten (see "Findings").
- Embeddings.ConvertChunks: a failing batch gives `Err` and no records. The source has already appended the earlier batches' records to its output file, which it opens in append mode (src/pipeline-advanced/create_embeddings.py:149-166), and those stay there. The model states what a successful run writes and that a failing run fails.
- ChunkCounts.CollectCounts: requires that the paging ends or fails within some number of requests (`Ends`). The source loops as long as the store hands out full pages with a cursor.
- External services are parameters: the sentence encoder (`encode` of a `Setting`, assumed to give one vector per text where a lemma says so), the image describer and chat endpoint (`ask`, `chat`), the LLM call with its retries and sleeps (`generate`), the EMF and Pillow image converters (`Converter`), the spaCy pipeline (`nlp` and token records), and the Weaviate client (`fetch`). Connecting to and closing the client are not modelled.
- Floating-point scores: SpacyKeywords scores are exact `real`s, and the sort of candidates by descending score comes in as the `ranked` parameter. The output sort of collect_keywords_from_md.py:279-296, by float keys, is not modelled.
- The `noun_chunks` `ValueError` of a spaCy pipeline without a parser is not modelled: noun chunks are a field of the token record.
- Model loading in both spaCy scripts, and its failure exit, is not modelled. Only the name resolution is.
- The JSON parser and serialiser are parameters (`parse`) or output datatypes (`Json.OutLine`). File opening and reading and writing, `argparse`, stdout and stderr are not modelled. Where an exit status matters, the model returns it.
- The browser chat front end and its streaming decoder are not part of this model: src/front/server.py only returns a fixed reply. The vector-store scripts other than the chunk inventory are thin client wrappers. `src/pipeline/create_embeddings.py` repeats the advanced copy's logic. The files under docker/ are copies of the modelled ones.
- The HTML parse tree is an input: `BodyNode`, `Block`, `Item` and `Row` hold the text already extracted from each node. `Reparse` stands for BeautifulSoup's re-reading of a list item's inline buffer.
- Base64 decoding and encoding, and the image bytes, are not modelled.
- The clock (`created_at`) and the embedding model's name and version are fields of the `Setting`.

## Findings

| source | as written | input that shows it | evidently intended | confidence | as-written member | corrected member |
|---|---|---|---|---|---|---|
| src/pipeline/create_chunks.py:197-204 | After a flush, `approx = new_approx` keeps the tokens of the lines already flushed. The estimate therefore stays over the budget, and every later line of the buffer becomes a chunk of its own. | The lines `a b`, `c`, `d` with `chunk_size_tokens = 2` give three chunks. | The estimate restarts at the new line's tokens, so `c` and `d` share a chunk (two chunks). | not executed | SimpleChunker.EmitBufferAsWritten, SimpleChunker.AsWrittenSplitsFittingLines, SimpleChunker.GroupsAsWrittenSingletons | SimpleChunker.EmitBuffer, SimpleChunker.BufferGroupsSpec, SimpleChunker.CorrectedKeepsFittingLines |
