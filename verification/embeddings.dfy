/** The bookkeeping of the chunk embedder: chunk records are read from a
    JSONL file, gathered into batches of 64 and written out with one
    embedding for the chunk text and one per heading title, the titles of
    every row ordered by heading level.  The sentence encoder is a
    parameter (a function from a list of texts to a list of vectors), and
    so are the clock reading and the library version; the output file is
    the sequence of records written to it. */
module Embeddings {
  import opened Wrappers
  import Text
  import Json
  import Sorting

  type Fields = seq<(string, Json.Json)>

  /** One embedding; the encoder's floats are modelled as reals. */
  type Vector = seq<real>

  /** The sentence encoder: `model.encode(texts)`. */
  type Encoder = seq<string> -> seq<Vector>

  const BatchSize: nat := 64
  const ModelName: string := "paraphrase-xlm-r-multilingual-v1"

  const NoGet: string := "AttributeError: object has no attribute 'get'"

  datatype ModelInfo = ModelInfo(name: string, version: string)

  /** What one run shares between all its records: the encoder, the model
      description and the `created_at` time taken once at the start. */
  datatype Setting = Setting(encode: Encoder, model: ModelInfo, createdAt: string)

  /** The encoder returns one vector per text, as sentence encoders do. */
  ghost predicate LengthPreserving(encode: Encoder) {
    forall texts: seq<string> {:trigger encode(texts)} :: |encode(texts)| == |texts|
  }

  // ---------------------------------------------------------------- sequences

  function Concat<T>(gs: seq<seq<T>>): seq<T> {
    if gs == [] then [] else Concat(gs[..|gs| - 1]) + gs[|gs| - 1]
  }

  function Lengths<T>(gs: seq<seq<T>>): (ns: seq<nat>)
    ensures |ns| == |gs| && forall k :: 0 <= k < |gs| ==> ns[k] == |gs[k]|
  {
    seq(|gs|, k requires 0 <= k < |gs| => |gs[k]|)
  }

  /** `counts[0] + ... + counts[i - 1]`: where row `i` starts in the
      flattened list. */
  function Offset(counts: seq<nat>, i: nat): nat
    requires i <= |counts|
  {
    if i == 0 then 0 else Offset(counts, i - 1) + counts[i - 1]
  }

  lemma {:induction false} ConcatAppend<T>(a: seq<seq<T>>, b: seq<seq<T>>)
    ensures Concat(a + b) == Concat(a) + Concat(b)
    decreases |b|
  {
    if b == [] {
      assert a + b == a;
    } else {
      var init := b[..|b| - 1];
      assert (a + b)[..|a + b| - 1] == a + init;
      ConcatAppend(a, init);
    }
  }

  /** The first `i` rows flattened are as long as row `i`'s offset. */
  lemma {:induction false} ConcatOffset<T>(gs: seq<seq<T>>, i: nat)
    requires i <= |gs|
    ensures |Concat(gs[..i])| == Offset(Lengths(gs), i)
  {
    if i > 0 {
      ConcatOffset(gs, i - 1);
      assert gs[..i][..i - 1] == gs[..i - 1];
    }
  }

  lemma {:induction false} OffsetMono(counts: seq<nat>, i: nat, j: nat)
    requires i <= j <= |counts|
    ensures Offset(counts, i) <= Offset(counts, j)
    decreases j
  {
    if i < j {
      OffsetMono(counts, i, j - 1);
    }
  }

  // ---------------------------------------------------------------- metadata

  /** `d.get(key)`, `None` when the key is missing. */
  function Lookup(fields: Fields, key: string): Json.Json {
    match Json.Get(fields, key)
    case Some(v) => v
    case None => Json.JNull
  }

  /** The keywords and headings of a chunk's metadata. */
  datatype Meta = Meta(keywords: seq<Json.Json>, headings: Fields)

  /** `_extract_meta`: a missing or falsy `metadata` counts as `{}`, a
      missing or non-list `keywords` as `[]`, a missing or non-dict
      `headings` as `{}`.  A truthy `metadata` that is not a dict has no
      `get`, and the run stops there. */
  function ExtractMeta(chunk: Fields): Result<Meta> {
    var meta := Lookup(chunk, "metadata");
    if Json.Truthy(meta) && !meta.JObj? then Err(NoGet)
    else
      var fields := if meta.JObj? then meta.fields else [];
      var keywords := Lookup(fields, "keywords");
      var headings := Lookup(fields, "headings");
      Ok(Meta(if keywords.JArr? then keywords.items else [],
              if headings.JObj? then headings.fields else []))
  }

  /** The defaults of `_extract_meta`: it fails exactly on a truthy
      non-dict `metadata`; a chunk without metadata gets no keywords and no
      headings; otherwise a stored keyword list and a stored headings dict
      come back as they are, and anything else in their place as empty. */
  lemma ExtractMetaSpec(chunk: Fields)
    ensures ExtractMeta(chunk).Err? <==> Json.Truthy(Lookup(chunk, "metadata")) && !Lookup(chunk, "metadata").JObj?
    ensures Json.Get(chunk, "metadata").None? ==> ExtractMeta(chunk) == Ok(Meta([], []))
    ensures ExtractMeta(chunk).Ok? && Lookup(chunk, "metadata").JObj? ==>
      var meta := Lookup(chunk, "metadata").fields;
      var r := ExtractMeta(chunk).value;
      && (Lookup(meta, "keywords").JArr? ==> r.keywords == Lookup(meta, "keywords").items)
      && (!Lookup(meta, "keywords").JArr? ==> r.keywords == [])
      && (Lookup(meta, "headings").JObj? ==> r.headings == Lookup(meta, "headings").fields)
      && (!Lookup(meta, "headings").JObj? ==> r.headings == [])
  {
  }

  // ---------------------------------------------------------------- ordered titles

  /** A heading entry that takes part in the ordering: a key starting with
      `h` and a string value that is not blank. */
  predicate IsTitleEntry(entry: (string, Json.Json)) {
    Text.StartsWith(entry.0, "h") && entry.1.JStr? && !Text.IsBlank(entry.1.s)
  }

  /** `int(k[1:])` of a title entry's key. */
  function KeyLevel(entry: (string, Json.Json)): Option<int>
    requires IsTitleEntry(entry)
  {
    Text.ParseInt(entry.0[1..])
  }

  /** The title entries of a headings dict, in dict order. */
  function TitleEntries(headings: Fields): (es: Fields)
    ensures forall e :: e in es <==> e in headings && IsTitleEntry(e)
  {
    if headings == [] then []
    else
      var init := headings[..|headings| - 1];
      var e := headings[|headings| - 1];
      assert headings == init + [e];
      if IsTitleEntry(e) then TitleEntries(init) + [e] else TitleEntries(init)
  }

  /** The `(int(k[1:]), v)` pairs the generator yields, in dict order; the
      first title key whose suffix is not an integer raises ValueError. */
  function Levelled(headings: Fields): (r: Result<seq<(int, string)>>)
  {
    if headings == [] then Ok([])
    else
      var init := headings[..|headings| - 1];
      var e := headings[|headings| - 1];
      if !IsTitleEntry(e) then Levelled(init)
      else
        match Levelled(init)
        case Err(msg) => Err(msg)
        case Ok(ps) =>
          match KeyLevel(e)
          case None => Err("ValueError: invalid literal for int() with base 10: '" + e.0[1..] + "'")
          case Some(level) => Ok(ps + [(level, e.1.s)])
  }

  /** Every entry is a title entry whose key has an integer suffix. */
  predicate ParsesAll(es: Fields) {
    forall k :: 0 <= k < |es| ==> IsTitleEntry(es[k]) && KeyLevel(es[k]).Some?
  }

  /** One `(level, title)` pair per entry. */
  function Pairs(es: Fields): (ps: seq<(int, string)>)
    requires ParsesAll(es)
    ensures |ps| == |es|
  {
    seq(|es|, k requires 0 <= k < |es| => PairOf(es[k]))
  }

  function PairOf(e: (string, Json.Json)): (int, string)
    requires IsTitleEntry(e) && KeyLevel(e).Some?
  {
    (KeyLevel(e).value, e.1.s)
  }

  /** The generator succeeds exactly when every title key has an integer
      suffix. */
  lemma {:induction false} LevelledOk(headings: Fields)
    ensures Levelled(headings).Ok? <==> ParsesAll(TitleEntries(headings))
  {
    if headings != [] {
      var init := headings[..|headings| - 1];
      var e := headings[|headings| - 1];
      LevelledOk(init);
      var es := TitleEntries(init);
      if IsTitleEntry(e) {
        assert TitleEntries(headings) == es + [e];
        ParsesAllSnoc(es, e);
      }
    }
  }

  lemma ParsesAllSnoc(es: Fields, e: (string, Json.Json))
    requires IsTitleEntry(e)
    ensures ParsesAll(es + [e]) <==> ParsesAll(es) && KeyLevel(e).Some?
  {
    assert forall k :: 0 <= k < |es| ==> (es + [e])[k] == es[k];
    assert (es + [e])[|es|] == e;
  }

  /** When it succeeds, the generator yields one pair per title entry, in
      dict order. */
  lemma {:induction false} LevelledPairs(headings: Fields)
    requires Levelled(headings).Ok?
    ensures ParsesAll(TitleEntries(headings))
    ensures Levelled(headings).value == Pairs(TitleEntries(headings))
  {
    LevelledOk(headings);
    if headings != [] {
      var init := headings[..|headings| - 1];
      var e := headings[|headings| - 1];
      var es := TitleEntries(init);
      if IsTitleEntry(e) {
        assert TitleEntries(headings) == es + [e];
        assert Levelled(init).Ok?;
        LevelledOk(init);
        LevelledPairs(init);
        PairsSnoc(es, e);
      } else {
        LevelledPairs(init);
      }
    }
  }

  lemma PairsSnoc(es: Fields, e: (string, Json.Json))
    requires ParsesAll(es) && IsTitleEntry(e) && KeyLevel(e).Some?
    ensures ParsesAll(es + [e])
    ensures Pairs(es + [e]) == Pairs(es) + [PairOf(e)]
  {
    assert forall k :: 0 <= k < |es| ==> (es + [e])[k] == es[k];
  }

  function Level(p: (int, string)): int { p.0 }

  /** `sorted(..., key=lambda t: t[0])`: the pairs by ascending level. */
  function SortedLevels(headings: Fields): Result<seq<(int, string)>> {
    match Levelled(headings)
    case Err(msg) => Err(msg)
    case Ok(ps) => Ok(Sorting.SortByKey(ps, Level))
  }

  function Titles(ps: seq<(int, string)>): (ts: seq<string>)
    ensures |ts| == |ps| && forall k :: 0 <= k < |ps| ==> ts[k] == ps[k].1
  {
    seq(|ps|, k requires 0 <= k < |ps| => ps[k].1)
  }

  /** The `ordered` list of one row: its titles by ascending level. */
  function OrderedTitles(headings: Fields): Result<seq<string>> {
    match SortedLevels(headings)
    case Err(msg) => Err(msg)
    case Ok(ps) => Ok(Titles(ps))
  }

  /** The ordering fails exactly when the generator does; otherwise the
      pairs are sorted by level, they are the generator's pairs rearranged,
      and the titles are read off them. */
  lemma SortedLevelsSpec(headings: Fields)
    ensures SortedLevels(headings).Ok? <==> Levelled(headings).Ok?
    ensures OrderedTitles(headings).Ok? <==> Levelled(headings).Ok?
    ensures SortedLevels(headings).Ok? ==>
      var ps := SortedLevels(headings).value;
      && Sorting.SortedByKey(ps, Level)
      && multiset(ps) == multiset(Levelled(headings).value)
      && OrderedTitles(headings) == Ok(Titles(ps))
  {
    if Levelled(headings).Ok? {
      Sorting.SortByKeySorted(Levelled(headings).value, Level);
    }
  }

  /** Titles of equal level keep their dict order. */
  lemma SortedLevelsStable(headings: Fields, a: (int, string), b: (int, string))
    requires Levelled(headings).Ok? && Sorting.NoDups(Levelled(headings).value)
    requires a in Levelled(headings).value && b in Levelled(headings).value && a.0 == b.0
    ensures var ps := Levelled(headings).value; var sorted := SortedLevels(headings).value;
      Sorting.IndexOf(sorted, a) < Sorting.IndexOf(sorted, b) <==> Sorting.IndexOf(ps, a) < Sorting.IndexOf(ps, b)
  {
    Sorting.SortByKeyStable(Levelled(headings).value, Level, a, b);
  }

  // ---------------------------------------------------------------- flatten

  /** One row's ordered titles: its metadata, then its headings ordered. */
  function RowOrdered(row: Fields): Result<seq<string>> {
    match ExtractMeta(row)
    case Err(msg) => Err(msg)
    case Ok(meta) => OrderedTitles(meta.headings)
  }

  /** Every row's ordered titles, or the first failure: a bad `metadata`
      or a bad heading key. */
  function RowTitles(rows: seq<Fields>): (r: Result<seq<seq<string>>>)
    ensures r.Ok? ==> |r.value| == |rows|
  {
    if rows == [] then Ok([])
    else
      match RowTitles(rows[..|rows| - 1])
      case Err(msg) => Err(msg)
      case Ok(ts) =>
        match RowOrdered(rows[|rows| - 1])
        case Err(msg) => Err(msg)
        case Ok(t) => Ok(ts + [t])
  }

  lemma RowTitlesSnoc(rows: seq<Fields>, i: nat)
    requires i < |rows| && RowTitles(rows[..i]).Ok?
    ensures RowOrdered(rows[i]).Ok? ==> RowTitles(rows[..i + 1]) == Ok(RowTitles(rows[..i]).value + [RowOrdered(rows[i]).value])
    ensures RowOrdered(rows[i]).Err? ==> RowTitles(rows[..i + 1]) == Err(RowOrdered(rows[i]).error)
  {
    assert rows[..i + 1][..i] == rows[..i];
  }

  lemma LengthsSnoc<T>(gs: seq<seq<T>>, g: seq<T>)
    ensures Lengths(gs + [g]) == Lengths(gs) + [|g|]
  {
  }

  lemma ConcatSnoc<T>(gs: seq<seq<T>>, g: seq<T>)
    ensures Concat(gs + [g]) == Concat(gs) + g
  {
    assert (gs + [g])[..|gs|] == gs;
  }

  /** The heading loop of a flush: `counts_per_row` gets each row's title
      count and `flat_headings` all the titles, row after row. */
  method FlattenTitles(rows: seq<Fields>) returns (r: Result<(seq<nat>, seq<string>)>)
    ensures r.Err? <==> RowTitles(rows).Err?
    ensures r.Err? ==> r.error == RowTitles(rows).error
    ensures r.Ok? ==> r.value.0 == Lengths(RowTitles(rows).value) && r.value.1 == Concat(RowTitles(rows).value)
  {
    var counts: seq<nat> := [];
    var flat: seq<string> := [];
    ghost var titles: seq<seq<string>> := [];
    assert rows[..0] == [];
    for i := 0 to |rows|
      invariant RowTitles(rows[..i]) == Ok(titles)
      invariant counts == Lengths(titles) && flat == Concat(titles)
    {
      RowTitlesSnoc(rows, i);
      var meta := ExtractMeta(rows[i]);
      if meta.Err? {
        RowTitlesStops(rows, i + 1);
        return Err(meta.error);
      }
      var ordered := OrderedTitles(meta.value.headings);
      if ordered.Err? {
        RowTitlesStops(rows, i + 1);
        return Err(ordered.error);
      }
      LengthsSnoc(titles, ordered.value);
      ConcatSnoc(titles, ordered.value);
      counts := counts + [|ordered.value|];
      flat := flat + ordered.value;
      titles := titles + [ordered.value];
    }
    assert rows[..|rows|] == rows;
    r := Ok((counts, flat));
  }

  /** Once a prefix of the rows fails, all of them fail the same way. */
  lemma {:induction false} RowTitlesStops(rows: seq<Fields>, i: nat)
    requires i <= |rows| && RowTitles(rows[..i]).Err?
    ensures RowTitles(rows) == RowTitles(rows[..i])
    decreases |rows|
  {
    if i < |rows| {
      var init := rows[..|rows| - 1];
      assert init[..i] == rows[..i];
      RowTitlesStops(init, i);
    } else {
      assert rows[..i] == rows;
    }
  }

  // ---------------------------------------------------------------- regroup

  /** `xs[lo:hi]`: Python clamps the bounds to the length. */
  function PySlice<T>(xs: seq<T>, lo: nat, hi: nat): (r: seq<T>)
    requires lo <= hi
    ensures hi <= |xs| ==> r == xs[lo..hi]
  {
    if lo >= |xs| then [] else if hi >= |xs| then xs[lo..] else xs[lo..hi]
  }

  /** Row `i` gets the `counts[i]` vectors that follow the first
      `counts[0] + ... + counts[i - 1]`. */
  function Regrouped<T>(counts: seq<nat>, list: seq<T>): (r: seq<seq<T>>)
    ensures |r| == |counts|
  {
    seq(|counts|, i requires 0 <= i < |counts| => RowSlice(counts, list, i))
  }

  /** `heading_embs_list[idx : idx + count]` for row `i`. */
  function RowSlice<T>(counts: seq<nat>, list: seq<T>, i: nat): seq<T>
    requires i < |counts|
  {
    PySlice(list, Offset(counts, i), Offset(counts, i) + counts[i])
  }

  /** The `idx` cursor loop that splits `heading_embs_list` back into
      per-row lists. */
  method Regroup<T>(counts: seq<nat>, list: seq<T>) returns (perRow: seq<seq<T>>)
    ensures perRow == Regrouped(counts, list)
  {
    perRow := [];
    var idx: nat := 0;
    for i := 0 to |counts|
      invariant idx == Offset(counts, i)
      invariant |perRow| == i
      invariant forall j :: 0 <= j < i ==> perRow[j] == Regrouped(counts, list)[j]
    {
      if counts[i] == 0 {
        perRow := perRow + [[]];
      } else {
        perRow := perRow + [PySlice(list, idx, idx + counts[i])];
        idx := idx + counts[i];
      }
    }
  }

  /** Flattening then regrouping by the row lengths gives the rows back. */
  lemma RegroupedRoundTrip<T>(groups: seq<seq<T>>)
    ensures Regrouped(Lengths(groups), Concat(groups)) == groups
  {
    forall i | 0 <= i < |groups|
      ensures Regrouped(Lengths(groups), Concat(groups))[i] == groups[i]
    {
      RegroupedAt(groups, i);
    }
  }

  lemma RegroupedAt<T>(groups: seq<seq<T>>, i: nat)
    requires i < |groups|
    ensures Regrouped(Lengths(groups), Concat(groups))[i] == groups[i]
  {
    var counts := Lengths(groups);
    var all := Concat(groups);
    var before := Concat(groups[..i]);
    var after := Concat(groups[i + 1..]);
    ConcatSplit(groups, i);
    ConcatOffset(groups, i);
    MiddleSlice(before, groups[i], after);
    assert Regrouped(counts, all)[i] == PySlice(all, |before|, |before| + |groups[i]|);
  }

  lemma MiddleSlice<T>(a: seq<T>, b: seq<T>, c: seq<T>)
    ensures (a + b + c)[|a|..|a| + |b|] == b
  {
  }

  /** The flattened rows around row `i`. */
  lemma ConcatSplit<T>(groups: seq<seq<T>>, i: nat)
    requires i < |groups|
    ensures Concat(groups) == Concat(groups[..i]) + groups[i] + Concat(groups[i + 1..])
  {
    var b := groups[..i + 1];
    var c := groups[i + 1..];
    assert Concat(groups) == Concat(b) + Concat(c) by {
      assert groups == b + c;
      ConcatAppend(b, c);
    }
    assert Concat(b) == Concat(groups[..i]) + groups[i] by {
      assert b[..|b| - 1] == groups[..i];
    }
  }

  /** When there is one vector per title, row `i` gets exactly `counts[i]`
      vectors and the rows put back together are the whole list. */
  lemma RegroupedSplits<T>(counts: seq<nat>, list: seq<T>)
    requires |list| == Offset(counts, |counts|)
    ensures Lengths(Regrouped(counts, list)) == counts
    ensures Concat(Regrouped(counts, list)) == list
  {
    RegroupedLengths(counts, list);
    RegroupedPrefix(counts, list, |counts|);
    assert Regrouped(counts, list)[..|counts|] == Regrouped(counts, list);
  }

  lemma RegroupedLengths<T>(counts: seq<nat>, list: seq<T>)
    requires |list| == Offset(counts, |counts|)
    ensures Lengths(Regrouped(counts, list)) == counts
  {
    var r := Regrouped(counts, list);
    forall i | 0 <= i < |counts|
      ensures |r[i]| == counts[i]
    {
      OffsetMono(counts, i + 1, |counts|);
      assert r[i] == list[Offset(counts, i)..Offset(counts, i) + counts[i]];
    }
    assert Lengths(r) == counts;
  }

  lemma {:induction false} RegroupedPrefix<T>(counts: seq<nat>, list: seq<T>, i: nat)
    requires |list| == Offset(counts, |counts|) && i <= |counts|
    ensures Offset(counts, i) <= |list|
    ensures Concat(Regrouped(counts, list)[..i]) == list[..Offset(counts, i)]
  {
    OffsetMono(counts, i, |counts|);
    if i > 0 {
      var r := Regrouped(counts, list);
      var lo := Offset(counts, i - 1);
      var hi := Offset(counts, i);
      RegroupedPrefix(counts, list, i - 1);
      assert r[i - 1] == list[lo..hi];
      assert Concat(r[..i]) == Concat(r[..i - 1]) + r[i - 1] by {
        assert r[..i][..i - 1] == r[..i - 1];
      }
      assert list[..hi] == list[..lo] + list[lo..hi];
    }
  }

  // ---------------------------------------------------------------- records

  /** One line of the output file. */
  datatype Record = Record(
    chunkId: Json.Json,
    text: string,
    embedding: Vector,
    embeddings: seq<Vector>,
    model: ModelInfo,
    createdAt: string,
    approxTokens: Json.Json,
    keywords: seq<Json.Json>,
    headings: Fields)

  /** `item.get("text", "")`, through `str` when it is not a string. */
  function TextOf(item: Fields): string {
    match Json.Get(item, "text")
    case None => ""
    case Some(JStr(s)) => s
    case Some(v) => Json.PyStr(v)
  }

  function Texts(rows: seq<Fields>): (ts: seq<string>)
    ensures |ts| == |rows| && forall k :: 0 <= k < |rows| ==> ts[k] == TextOf(rows[k])
  {
    seq(|rows|, k requires 0 <= k < |rows| => TextOf(rows[k]))
  }

  function RecordOf(item: Fields, meta: Meta, emb: Vector, embs: seq<Vector>, s: Setting): Record {
    Record(Lookup(item, "chunk_id"), TextOf(item), emb, embs, s.model, s.createdAt,
           Lookup(item, "approx_tokens"), meta.keywords, meta.headings)
  }

  function Min3(a: nat, b: nat, c: nat): nat {
    if a <= b && a <= c then a else if b <= c then b else c
  }

  /** The records of the first `n` triples of `zip(rows, text_embs,
      per_row_embeddings)`. */
  function ZipRecords(rows: seq<Fields>, textEmbs: seq<Vector>, perRow: seq<seq<Vector>>, s: Setting, n: nat): (r: Result<seq<Record>>)
    requires n <= |rows| && n <= |textEmbs| && n <= |perRow|
    ensures r.Ok? ==> |r.value| == n
  {
    if n == 0 then Ok([])
    else
      match ZipRecords(rows, textEmbs, perRow, s, n - 1)
      case Err(msg) => Err(msg)
      case Ok(recs) =>
        match ExtractMeta(rows[n - 1])
        case Err(msg) => Err(msg)
        case Ok(meta) => Ok(recs + [RecordOf(rows[n - 1], meta, textEmbs[n - 1], perRow[n - 1], s)])
  }

  /** What one flush writes: the records of a non-empty batch, or the
      failure that stops the run. */
  function BatchRecords(rows: seq<Fields>, s: Setting): Result<seq<Record>> {
    match RowTitles(rows)
    case Err(msg) => Err(msg)
    case Ok(titles) =>
      var textEmbs := s.encode(Texts(rows));
      var flat := Concat(titles);
      var headingEmbs := if flat == [] then [] else s.encode(flat);
      var perRow := Regrouped(Lengths(titles), headingEmbs);
      ZipRecords(rows, textEmbs, perRow, s, Min3(|rows|, |textEmbs|, |perRow|))
  }

  /** The writing loop of a flush, over `zip(rows, text_embs,
      per_row_embeddings)`. */
  method ZipWrite(rows: seq<Fields>, textEmbs: seq<Vector>, perRow: seq<seq<Vector>>, s: Setting) returns (r: Result<seq<Record>>)
    ensures r == ZipRecords(rows, textEmbs, perRow, s, Min3(|rows|, |textEmbs|, |perRow|))
  {
    var n := Min3(|rows|, |textEmbs|, |perRow|);
    var recs: seq<Record> := [];
    for k := 0 to n
      invariant ZipRecords(rows, textEmbs, perRow, s, k) == Ok(recs)
    {
      var meta := ExtractMeta(rows[k]);
      if meta.Err? {
        ZipRecordsStops(rows, textEmbs, perRow, s, k, n);
        return Err(meta.error);
      }
      recs := recs + [RecordOf(rows[k], meta.value, textEmbs[k], perRow[k], s)];
    }
    r := Ok(recs);
  }

  /** A row whose metadata fails stops the writing loop there. */
  lemma {:induction false} ZipRecordsStops(rows: seq<Fields>, textEmbs: seq<Vector>, perRow: seq<seq<Vector>>, s: Setting, k: nat, n: nat)
    requires k < n <= |rows| && n <= |textEmbs| && n <= |perRow|
    requires ZipRecords(rows, textEmbs, perRow, s, k).Ok? && ExtractMeta(rows[k]).Err?
    ensures ZipRecords(rows, textEmbs, perRow, s, n) == Err(ExtractMeta(rows[k]).error)
    decreases n
  {
    if n == k + 1 {
      ZipRecordsMetaErr(rows, textEmbs, perRow, s, k);
    } else {
      ZipRecordsStops(rows, textEmbs, perRow, s, k, n - 1);
      ZipRecordsErrStays(rows, textEmbs, perRow, s, n);
    }
  }

  /** Once the loop has failed, one more row leaves it failed with the same error. */
  lemma ZipRecordsErrStays(rows: seq<Fields>, textEmbs: seq<Vector>, perRow: seq<seq<Vector>>, s: Setting, n: nat)
    requires 0 < n <= |rows| && n <= |textEmbs| && n <= |perRow|
    requires ZipRecords(rows, textEmbs, perRow, s, n - 1).Err?
    ensures ZipRecords(rows, textEmbs, perRow, s, n) == ZipRecords(rows, textEmbs, perRow, s, n - 1)
  {
  }

  lemma ZipRecordsMetaErr(rows: seq<Fields>, textEmbs: seq<Vector>, perRow: seq<seq<Vector>>, s: Setting, k: nat)
    requires k < |rows| && k < |textEmbs| && k < |perRow|
    requires ZipRecords(rows, textEmbs, perRow, s, k).Ok? && ExtractMeta(rows[k]).Err?
    ensures ZipRecords(rows, textEmbs, perRow, s, k + 1) == Err(ExtractMeta(rows[k]).error)
  {
  }

  /** The record written for `item`: its own id, text, token estimate,
      keywords and headings, the run's model and time, and one heading
      vector per ordered title. */
  predicate RecordFor(item: Fields, rec: Record, s: Setting) {
    && ExtractMeta(item) == Ok(Meta(rec.keywords, rec.headings))
    && RowOrdered(item).Ok?
    && |rec.embeddings| == |RowOrdered(item).value|
    && rec.chunkId == Lookup(item, "chunk_id")
    && rec.text == TextOf(item)
    && rec.approxTokens == Lookup(item, "approx_tokens")
    && rec.model == s.model
    && rec.createdAt == s.createdAt
  }

  predicate RecordsFor(items: seq<Fields>, recs: seq<Record>, s: Setting) {
    |recs| == |items| && forall k :: 0 <= k < |items| ==> RecordFor(items[k], recs[k], s)
  }

  lemma RecordsForAppend(a: seq<Fields>, ra: seq<Record>, b: seq<Fields>, rb: seq<Record>, s: Setting)
    requires RecordsFor(a, ra, s) && RecordsFor(b, rb, s)
    ensures RecordsFor(a + b, ra + rb, s)
  {
    forall k | 0 <= k < |a + b|
      ensures RecordFor((a + b)[k], (ra + rb)[k], s)
    {
      if k >= |a| {
        assert (a + b)[k] == b[k - |a|] && (ra + rb)[k] == rb[k - |a|];
      }
    }
  }

  lemma {:induction false} RowTitlesAt(rows: seq<Fields>, k: nat)
    requires RowTitles(rows).Ok? && k < |rows|
    ensures RowOrdered(rows[k]) == Ok(RowTitles(rows).value[k])
    decreases |rows|
  {
    var init := rows[..|rows| - 1];
    if k < |rows| - 1 {
      RowTitlesAt(init, k);
      assert init[k] == rows[k];
    }
  }

  lemma {:induction false} ZipRecordsFor(rows: seq<Fields>, textEmbs: seq<Vector>, perRow: seq<seq<Vector>>, s: Setting, n: nat)
    requires n <= |rows| && n <= |textEmbs| && n <= |perRow|
    requires RowTitles(rows).Ok? && Lengths(perRow) == Lengths(RowTitles(rows).value)
    ensures ZipRecords(rows, textEmbs, perRow, s, n).Ok?
    ensures RecordsFor(rows[..n], ZipRecords(rows, textEmbs, perRow, s, n).value, s)
  {
    if n > 0 {
      ZipRecordsFor(rows, textEmbs, perRow, s, n - 1);
      ZipRecordsStep(rows, textEmbs, perRow, s, n - 1);
    }
  }

  lemma ZipRecordsStep(rows: seq<Fields>, textEmbs: seq<Vector>, perRow: seq<seq<Vector>>, s: Setting, k: nat)
    requires k < |rows| && k < |textEmbs| && k < |perRow|
    requires RowTitles(rows).Ok? && Lengths(perRow) == Lengths(RowTitles(rows).value)
    requires ZipRecords(rows, textEmbs, perRow, s, k).Ok?
    requires RecordsFor(rows[..k], ZipRecords(rows, textEmbs, perRow, s, k).value, s)
    ensures ZipRecords(rows, textEmbs, perRow, s, k + 1).Ok?
    ensures RecordsFor(rows[..k + 1], ZipRecords(rows, textEmbs, perRow, s, k + 1).value, s)
  {
    var rec := ZipRecordLast(rows, textEmbs, perRow, s, k);
    RecordsForSnoc(rows, k, ZipRecords(rows, textEmbs, perRow, s, k).value, rec, s);
  }

  lemma RecordsForSnoc(items: seq<Fields>, k: nat, recs: seq<Record>, rec: Record, s: Setting)
    requires k < |items| && RecordsFor(items[..k], recs, s) && RecordFor(items[k], rec, s)
    ensures RecordsFor(items[..k + 1], recs + [rec], s)
  {
    forall j | 0 <= j < k + 1
      ensures RecordFor(items[..k + 1][j], (recs + [rec])[j], s)
    {
      if j < k {
        assert items[..k + 1][j] == items[..k][j] && (recs + [rec])[j] == recs[j];
      } else {
        assert items[..k + 1][j] == items[k] && (recs + [rec])[j] == rec;
      }
    }
  }

  /** The record of row `k` is a record for that row. */
  lemma ZipRecordLast(rows: seq<Fields>, textEmbs: seq<Vector>, perRow: seq<seq<Vector>>, s: Setting, k: nat) returns (rec: Record)
    requires k < |rows| && k < |textEmbs| && k < |perRow|
    requires RowTitles(rows).Ok? && Lengths(perRow) == Lengths(RowTitles(rows).value)
    requires ZipRecords(rows, textEmbs, perRow, s, k).Ok?
    ensures ZipRecords(rows, textEmbs, perRow, s, k + 1) == Ok(ZipRecords(rows, textEmbs, perRow, s, k).value + [rec])
    ensures RecordFor(rows[k], rec, s)
  {
    RowTitlesAt(rows, k);
    rec := RecordOf(rows[k], ExtractMeta(rows[k]).value, textEmbs[k], perRow[k], s);
    assert |perRow[k]| == Lengths(perRow)[k];
  }

  /** With an encoder that returns one vector per text, a flush fails only
      on a bad row, and otherwise writes one record per row, in order, each
      holding one heading vector per ordered title of its row. */
  lemma BatchRecordsSpec(rows: seq<Fields>, s: Setting)
    requires LengthPreserving(s.encode)
    ensures BatchRecords(rows, s).Ok? <==> RowTitles(rows).Ok?
    ensures BatchRecords(rows, s).Ok? ==> RecordsFor(rows, BatchRecords(rows, s).value, s)
  {
    if RowTitles(rows).Ok? {
      var titles := RowTitles(rows).value;
      var flat := Concat(titles);
      var textEmbs := s.encode(Texts(rows));
      var headingEmbs := if flat == [] then [] else s.encode(flat);
      assert |headingEmbs| == |flat|;
      ConcatOffset(titles, |titles|);
      assert titles[..|titles|] == titles;
      RegroupedSplits(Lengths(titles), headingEmbs);
      var perRow := Regrouped(Lengths(titles), headingEmbs);
      ZipRecordsFor(rows, textEmbs, perRow, s, |rows|);
      assert rows[..|rows|] == rows;
    }
  }

  // ---------------------------------------------------------------- batching

  /** The batches the read loop flushes: 64 items at a time, then what is
      left at the end. */
  function Batches<T>(items: seq<T>): seq<seq<T>>
    decreases |items|
  {
    if items == [] then []
    else if |items| <= BatchSize then [items]
    else [items[..BatchSize]] + Batches(items[BatchSize..])
  }

  /** The batches are non-empty, hold 64 items each except the last, which
      holds at most 64, and together they are the items in order. */
  lemma BatchesSpec<T>(items: seq<T>)
    ensures Concat(Batches(items)) == items
    ensures forall k :: 0 <= k < |Batches(items)| ==> Batches(items)[k] != [] && |Batches(items)[k]| <= BatchSize
    ensures forall k :: 0 <= k < |Batches(items)| - 1 ==> |Batches(items)[k]| == BatchSize
  {
    BatchesConcat(items);
    forall k | 0 <= k < |Batches(items)|
      ensures Batches(items)[k] != [] && |Batches(items)[k]| <= BatchSize
      ensures k < |Batches(items)| - 1 ==> |Batches(items)[k]| == BatchSize
    {
      BatchShape(items, k);
    }
  }

  lemma {:induction false} BatchesConcat<T>(items: seq<T>)
    ensures Concat(Batches(items)) == items
    decreases |items|
  {
    if |items| > BatchSize {
      var rest := items[BatchSize..];
      BatchesConcat(rest);
      ConcatAppend([items[..BatchSize]], Batches(rest));
      assert Concat([items[..BatchSize]]) == items[..BatchSize] by {
        assert [items[..BatchSize]][..0] == [];
      }
      assert items == items[..BatchSize] + rest;
    } else if items != [] {
      assert Concat([items]) == items by {
        assert [items][..0] == [];
      }
    }
  }

  /** Batch `k` is non-empty and holds at most 64 items, exactly 64 unless
      it is the last. */
  lemma {:induction false} BatchShape<T>(items: seq<T>, k: nat)
    requires k < |Batches(items)|
    ensures Batches(items)[k] != [] && |Batches(items)[k]| <= BatchSize
    ensures k < |Batches(items)| - 1 ==> |Batches(items)[k]| == BatchSize
    decreases |items|
  {
    if |items| > BatchSize {
      var rest := items[BatchSize..];
      if k > 0 {
        assert Batches(items)[k] == Batches(rest)[k - 1];
        BatchShape(rest, k - 1);
      }
    }
  }

  /** `n` items make a whole number of batches. */
  predicate WholeBatches(n: nat) {
    n == 0 || (n >= BatchSize && WholeBatches(n - BatchSize))
  }

  /** After a whole number of batches, batching starts afresh. */
  lemma {:induction false} BatchesAppend<T>(a: seq<T>, c: seq<T>)
    requires WholeBatches(|a|)
    ensures Batches(a + c) == Batches(a) + Batches(c)
    decreases |a|
  {
    if a == [] {
      assert a + c == c;
    } else if |a| == BatchSize {
      if c == [] {
        assert a + c == a;
      } else {
        assert (a + c)[..BatchSize] == a && (a + c)[BatchSize..] == c;
      }
    } else {
      assert (a + c)[..BatchSize] == a[..BatchSize];
      assert (a + c)[BatchSize..] == a[BatchSize..] + c;
      BatchesAppend(a[BatchSize..], c);
    }
  }

  /** What one flushed batch contributes to the output: its records, or
      the failure that stops the run. */
  type Emit = seq<Fields> -> Result<seq<Record>>

  function Emitter(s: Setting): Emit {
    rows => BatchRecords(rows, s)
  }

  /** The records of all batches, or the first failure. */
  function EmitAll(batches: seq<seq<Fields>>, emit: Emit): Result<seq<Record>> {
    if batches == [] then Ok([])
    else
      match EmitAll(batches[..|batches| - 1], emit)
      case Err(msg) => Err(msg)
      case Ok(recs) =>
        match emit(batches[|batches| - 1])
        case Err(msg) => Err(msg)
        case Ok(more) => Ok(recs + more)
  }

  lemma {:induction false} EmitAllAppendErr(a: seq<seq<Fields>>, b: seq<seq<Fields>>, emit: Emit)
    requires EmitAll(a, emit).Err?
    ensures EmitAll(a + b, emit).Err?
    decreases |b|
  {
    if b == [] {
      assert a + b == a;
    } else {
      assert (a + b)[..|a + b| - 1] == a + b[..|b| - 1];
      EmitAllAppendErr(a, b[..|b| - 1], emit);
    }
  }

  lemma {:induction false} EmitAllFor(batches: seq<seq<Fields>>, s: Setting)
    requires LengthPreserving(s.encode) && EmitAll(batches, Emitter(s)).Ok?
    ensures RecordsFor(Concat(batches), EmitAll(batches, Emitter(s)).value, s)
  {
    if batches != [] {
      var init := batches[..|batches| - 1];
      EmitAllFor(init, s);
      BatchRecordsSpec(batches[|batches| - 1], s);
      RecordsForAppend(Concat(init), EmitAll(init, Emitter(s)).value, batches[|batches| - 1], BatchRecords(batches[|batches| - 1], s).value, s);
    }
  }

  // ---------------------------------------------------------------- the read loop

  /** The items the read loop keeps: lines are stripped, blank lines and
      lines that are not JSON (`parse` gives `None`) are skipped, and a JSON
      value that is not an object stops the run at `item.get`. */
  function Accepted(lines: seq<string>, parse: string -> Option<Json.Json>): Result<seq<Fields>> {
    if lines == [] then Ok([])
    else AcceptLine(Accepted(lines[..|lines| - 1], parse), lines[|lines| - 1], parse)
  }

  /** One turn of the read loop. */
  function AcceptLine(sofar: Result<seq<Fields>>, line: string, parse: string -> Option<Json.Json>): Result<seq<Fields>> {
    match sofar
    case Err(msg) => Err(msg)
    case Ok(items) =>
      var ln := Text.Strip(line);
      if ln == "" then Ok(items)
      else
        match parse(ln)
        case None => Ok(items)
        case Some(JObj(fields)) => Ok(items + [fields])
        case Some(_) => Err(NoGet)
  }

  lemma AcceptedSnoc(lines: seq<string>, parse: string -> Option<Json.Json>, i: nat)
    requires i < |lines|
    ensures Accepted(lines[..i + 1], parse) == AcceptLine(Accepted(lines[..i], parse), lines[i], parse)
  {
    assert lines[..i + 1][..i] == lines[..i];
  }

  /** What the whole run writes: the records of every batch of the kept
      items. */
  function Expected(lines: seq<string>, parse: string -> Option<Json.Json>, s: Setting): Result<seq<Record>> {
    match Accepted(lines, parse)
    case Err(msg) => Err(msg)
    case Ok(items) => EmitAll(Batches(items), Emitter(s))
  }

  /** A run that completes writes one record per kept item, in input
      order, all with the same model description and `created_at`. */
  lemma ExpectedRecords(lines: seq<string>, parse: string -> Option<Json.Json>, s: Setting)
    requires LengthPreserving(s.encode) && Expected(lines, parse, s).Ok?
    ensures RecordsFor(Accepted(lines, parse).value, Expected(lines, parse, s).value, s)
  {
    var items := Accepted(lines, parse).value;
    EmitAllFor(Batches(items), s);
    BatchesSpec(items);
  }

  /** Lines that are all blank or not JSON produce no records. */
  lemma {:induction false} NothingAccepted(lines: seq<string>, parse: string -> Option<Json.Json>)
    requires forall k :: 0 <= k < |lines| ==> Text.Strip(lines[k]) == "" || parse(Text.Strip(lines[k])).None?
    ensures Accepted(lines, parse) == Ok([])
  {
    if lines != [] {
      NothingAccepted(lines[..|lines| - 1], parse);
    }
  }

  /** Reading more lines only extends what was kept, unless a later line
      stops the run. */
  lemma {:induction false} AcceptedPrefix(lines: seq<string>, parse: string -> Option<Json.Json>, i: nat)
    requires i <= |lines| && Accepted(lines, parse).Ok?
    ensures Accepted(lines[..i], parse).Ok?
    ensures Accepted(lines[..i], parse).value <= Accepted(lines, parse).value
    decreases |lines|
  {
    if i < |lines| {
      var init := lines[..|lines| - 1];
      assert init[..i] == lines[..i];
      AcceptLineExtends(Accepted(init, parse), lines[|lines| - 1], parse);
      AcceptedPrefix(init, parse, i);
      PrefixTrans(Accepted(lines[..i], parse).value, Accepted(init, parse).value, Accepted(lines, parse).value);
    } else {
      assert lines[..i] == lines;
    }
  }

  /** A line that the read loop gets past leaves what was kept before it
      at the front of what is kept after it. */
  lemma AcceptLineExtends(sofar: Result<seq<Fields>>, line: string, parse: string -> Option<Json.Json>)
    requires AcceptLine(sofar, line, parse).Ok?
    ensures sofar.Ok? && sofar.value <= AcceptLine(sofar, line, parse).value
  {
  }

  lemma PrefixTrans<T>(a: seq<T>, b: seq<T>, c: seq<T>)
    requires a <= b && b <= c
    ensures a <= c
  {
    assert c[..|b|][..|a|] == c[..|a|];
  }

  lemma {:induction false} AcceptedStops(lines: seq<string>, parse: string -> Option<Json.Json>, i: nat)
    requires i <= |lines| && Accepted(lines[..i], parse).Err?
    ensures Accepted(lines, parse).Err?
    decreases |lines|
  {
    if i < |lines| {
      var init := lines[..|lines| - 1];
      assert init[..i] == lines[..i];
      AcceptedStops(init, parse, i);
    } else {
      assert lines[..i] == lines;
    }
  }

  /** One more flushed batch adds its records to the output. */
  lemma FlushOk(flushed: seq<Fields>, batch: seq<Fields>, emit: Emit)
    requires WholeBatches(|flushed|) && 0 < |batch| <= BatchSize
    requires EmitAll(Batches(flushed), emit).Ok? && emit(batch).Ok?
    ensures EmitAll(Batches(flushed + batch), emit) == Ok(EmitAll(Batches(flushed), emit).value + emit(batch).value)
  {
    BatchesAppend(flushed, batch);
    var bs := Batches(flushed) + [batch];
    assert bs[..|bs| - 1] == Batches(flushed);
  }

  /** A batch that fails makes the whole output fail. */
  lemma FlushErr(flushed: seq<Fields>, batch: seq<Fields>, emit: Emit)
    requires WholeBatches(|flushed|) && 0 < |batch| <= BatchSize
    requires emit(batch).Err?
    ensures EmitAll(Batches(flushed + batch), emit).Err?
  {
    BatchesAppend(flushed, batch);
    var bs := Batches(flushed) + [batch];
    assert bs[..|bs| - 1] == Batches(flushed);
  }

  /** The items kept after the first `i` lines start the items kept after
      all of them, and nothing follows once every line is read. */
  lemma AcceptedRest(lines: seq<string>, parse: string -> Option<Json.Json>, i: nat, prefix: seq<Fields>)
    returns (rest: seq<Fields>)
    requires i <= |lines| && Accepted(lines[..i], parse) == Ok(prefix)
    requires Accepted(lines, parse).Ok?
    ensures Accepted(lines, parse).value == prefix + rest
    ensures i == |lines| ==> rest == []
  {
    var items := Accepted(lines, parse).value;
    AcceptedPrefix(lines, parse, i);
    rest := items[|prefix|..];
    assert items == prefix + rest;
    if i == |lines| {
      assert lines[..i] == lines;
    }
  }

  /** When a flush fails after the first `i` lines, the run fails. */
  lemma FlushFails(lines: seq<string>, parse: string -> Option<Json.Json>, emit: Emit, i: nat, flushed: seq<Fields>, batch: seq<Fields>)
    requires i <= |lines| && Accepted(lines[..i], parse) == Ok(flushed + batch)
    requires WholeBatches(|flushed|) && 0 < |batch| <= BatchSize
    requires |batch| == BatchSize || i == |lines|
    requires emit(batch).Err?
    ensures Accepted(lines, parse).Ok? ==> EmitAll(Batches(Accepted(lines, parse).value), emit).Err?
  {
    if Accepted(lines, parse).Ok? {
      var rest := AcceptedRest(lines, parse, i, flushed + batch);
      BatchErrSpreads(flushed, batch, rest, emit);
    }
  }

  /** A failing batch makes the output of any longer item list fail. */
  lemma BatchErrSpreads(flushed: seq<Fields>, batch: seq<Fields>, rest: seq<Fields>, emit: Emit)
    requires WholeBatches(|flushed|) && 0 < |batch| <= BatchSize
    requires |batch| == BatchSize || rest == []
    requires emit(batch).Err?
    ensures EmitAll(Batches((flushed + batch) + rest), emit).Err?
  {
    FlushErr(flushed, batch, emit);
    if rest == [] {
      assert (flushed + batch) + rest == flushed + batch;
    } else {
      BatchesAppend(flushed + batch, rest);
      EmitAllAppendErr(Batches(flushed + batch), Batches(rest), emit);
    }
  }

  /** The body of `flush_batch` for a non-empty batch: encode the texts,
      flatten, encode and regroup the ordered heading titles, and zip
      everything into records. */
  method EncodeBatch(rows: seq<Fields>, texts: seq<string>, setting: Setting) returns (recs: Result<seq<Record>>)
    requires texts == Texts(rows)
    ensures recs == BatchRecords(rows, setting)
  {
    var textEmbs := setting.encode(texts);
    var flattened := FlattenTitles(rows);
    if flattened.Err? {
      return Err(flattened.error);
    }
    var counts := flattened.value.0;
    var flat := flattened.value.1;
    var headingEmbs: seq<Vector> := [];
    if flat != [] {
      headingEmbs := setting.encode(flat);
    }
    var perRow := Regroup(counts, headingEmbs);
    recs := ZipWrite(rows, textEmbs, perRow, setting);
  }

  // ---------------------------------------------------------------- the writer

  /** What `convert_chunks_to_embeddings` keeps between lines: the pending
      `texts` and `rows`, and the records already appended to the output
      file. */
  class EmbeddingWriter {
    var texts: seq<string>
    var rows: seq<Fields>
    var written: seq<Record>
    const setting: Setting

    /** `texts` holds the text of each pending row, so the two lists
        always have the same length. */
    predicate Valid()
      reads this
    {
      texts == Texts(rows)
    }

    /** A fresh run: nothing pending and the output file emptied. */
    constructor (setting: Setting)
      ensures Valid() && rows == [] && written == [] && this.setting == setting
    {
      texts := [];
      rows := [];
      written := [];
      this.setting := setting;
    }

    /** `rows.append(item)` and `texts.append(txt)`. */
    method Push(item: Fields)
      requires Valid()
      modifies this
      ensures Valid() && rows == old(rows) + [item] && written == old(written)
    {
      rows := rows + [item];
      texts := texts + [TextOf(item)];
    }

    /** `flush_batch`: with nothing pending it does nothing; otherwise the
        batch's records are appended to the output and the batch emptied,
        or the run fails with the output as it was. */
    method Flush() returns (r: Result<()>)
      requires Valid()
      modifies this
      ensures Valid()
      ensures old(rows) == [] ==> r == Ok(()) && rows == [] && written == old(written)
      ensures old(rows) != [] ==> (r.Ok? <==> BatchRecords(old(rows), setting).Ok?)
      ensures old(rows) != [] && r.Ok? ==> rows == [] && written == old(written) + BatchRecords(old(rows), setting).value
      ensures r.Err? ==> r.error == BatchRecords(old(rows), setting).error && written == old(written)
    {
      if texts == [] {
        return Ok(());
      }
      var recs := EncodeBatch(rows, texts, setting);
      if recs.Err? {
        return Err(recs.error);
      }
      written := written + recs.value;
      texts := [];
      rows := [];
      r := Ok(());
    }
  }

  /** Where the read loop stands after the first `i` lines: the kept items
      are the `flushed` ones, a whole number of batches whose records are
      the output so far, followed by the pending rows. */
  ghost predicate Progress(w: EmbeddingWriter, lines: seq<string>, parse: string -> Option<Json.Json>, setting: Setting, i: nat, flushed: seq<Fields>)
    reads w
  {
    && i <= |lines|
    && w.Valid() && w.setting == setting && |w.rows| < BatchSize
    && Accepted(lines[..i], parse) == Ok(flushed + w.rows)
    && WholeBatches(|flushed|)
    && EmitAll(Batches(flushed), Emitter(setting)) == Ok(w.written)
  }

  /** One turn of the read loop: skip a blank or malformed line, stop on a
      value without `get`, otherwise keep the item and flush once 64 texts
      are pending.  A failure is a failure of the whole run. */
  method ReadLine(w: EmbeddingWriter, lines: seq<string>, parse: string -> Option<Json.Json>, setting: Setting, i: nat, ghost flushed: seq<Fields>)
    returns (failure: Option<string>, ghost flushed': seq<Fields>)
    requires i < |lines| && Progress(w, lines, parse, setting, i, flushed)
    modifies w
    ensures failure.None? ==> Progress(w, lines, parse, setting, i + 1, flushed')
    ensures failure.Some? ==> Expected(lines, parse, setting).Err?
  {
    AcceptedSnoc(lines, parse, i);
    flushed' := flushed;
    var ln := Text.Strip(lines[i]);
    if ln == "" {
      return None, flushed';
    }
    var item := parse(ln);
    if item.None? {
      return None, flushed';
    }
    if !item.value.JObj? {
      AcceptedStops(lines, parse, i + 1);
      return Some(NoGet), flushed';
    }
    ghost var before := w.rows;
    w.Push(item.value.fields);
    assert flushed + w.rows == (flushed + before) + [item.value.fields];
    if |w.texts| >= BatchSize {
      ghost var batch := w.rows;
      failure, flushed' := FlushFull(w, flushed);
      if failure.Some? {
        FlushFails(lines, parse, Emitter(setting), i + 1, flushed, batch);
      } else {
        assert flushed' + w.rows == flushed + batch;
      }
      return;
    }
    assert |w.rows| < BatchSize;
    failure := None;
  }

  /** The flush of a full batch, with the bookkeeping of what has been
      flushed so far. */
  method FlushFull(w: EmbeddingWriter, ghost flushed: seq<Fields>) returns (failure: Option<string>, ghost flushed': seq<Fields>)
    requires w.Valid() && |w.rows| == BatchSize
    requires WholeBatches(|flushed|) && EmitAll(Batches(flushed), Emitter(w.setting)) == Ok(w.written)
    modifies w
    ensures w.Valid()
    ensures failure.Some? ==> BatchRecords(old(w.rows), w.setting).Err?
    ensures failure.None? ==> w.rows == [] && flushed' == flushed + old(w.rows)
    ensures failure.None? ==> WholeBatches(|flushed'|) && EmitAll(Batches(flushed'), Emitter(w.setting)) == Ok(w.written)
  {
    ghost var batch := w.rows;
    flushed' := flushed;
    var f := w.Flush();
    if f.Err? {
      return Some(f.error), flushed';
    }
    FlushOk(flushed, batch, Emitter(w.setting));
    assert WholeBatches(|flushed + batch|);
    flushed' := flushed + batch;
    failure := None;
  }

  /** The final flush. */
  method FinishRun(w: EmbeddingWriter, lines: seq<string>, parse: string -> Option<Json.Json>, setting: Setting, ghost flushed: seq<Fields>)
    returns (r: Result<seq<Record>>)
    requires Progress(w, lines, parse, setting, |lines|, flushed)
    modifies w
    ensures r.Ok? <==> Expected(lines, parse, setting).Ok?
    ensures r.Ok? ==> r == Expected(lines, parse, setting)
  {
    assert lines[..|lines|] == lines;
    ghost var batch := w.rows;
    var f := w.Flush();
    if f.Err? {
      FlushFails(lines, parse, Emitter(setting), |lines|, flushed, batch);
      return Err(f.error);
    }
    if batch != [] {
      FlushOk(flushed, batch, Emitter(setting));
    } else {
      assert flushed + batch == flushed;
    }
    r := Ok(w.written);
  }

  /** The read loop and the final flush of `convert_chunks_to_embeddings`;
      `parse` is `json.loads`, `None` for a line that is not JSON.  A run
      that completes has written exactly the records of every batch of the
      kept items; a run fails exactly when that output fails. */
  method ConvertChunks(lines: seq<string>, parse: string -> Option<Json.Json>, setting: Setting) returns (r: Result<seq<Record>>)
    ensures r.Ok? <==> Expected(lines, parse, setting).Ok?
    ensures r.Ok? ==> r == Expected(lines, parse, setting)
  {
    var w := new EmbeddingWriter(setting);
    ghost var flushed: seq<Fields> := [];
    assert lines[..0] == [];
    assert w.rows == [];
    assert Accepted([], parse) == Ok([]);
    assert flushed + w.rows == [];
    assert Accepted(lines[..0], parse) == Ok([]);
    for i := 0 to |lines|
      invariant Progress(w, lines, parse, setting, i, flushed)
    {
      var failure;
      failure, flushed := ReadLine(w, lines, parse, setting, i, flushed);
      if failure.Some? {
        return Err(failure.value);
      }
    }
    r := FinishRun(w, lines, parse, setting, flushed);
  }
}
