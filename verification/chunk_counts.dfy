/** The inventory of the vector store: a chunk id `<file>-<index>` names
    the file its chunk came from, and the counter pages through the stored
    objects, counting all of them and, per file, those whose id parses;
    the report lists the files in sorted order. */
module ChunkCounts {
  import opened Wrappers
  import Json
  import Text
  import Paths

  // ---------------------------------------------------------------- chunk ids

  /** Every character is an ASCII decimal digit. */
  predicate AllDigits(s: string) {
    forall i :: 0 <= i < |s| ==> Text.IsDigit(s[i])
  }

  /** The part of `id` the pattern has to cover: `$` matches at the end of
      the string and also just before a final line feed. */
  function MatchedPart(id: string): (t: string)
    ensures t == id || t + "\n" == id
  {
    if id != [] && id[|id| - 1] == '\n' then id[..|id| - 1] else id
  }

  /** `_file_from_chunk_id`, the pattern `^(?P<file>.+)-(?P<index>\d+)$`:
      `.` does not cross a line feed and the digits hold no `-`, so the
      greedy file group ends at the last `-` of the matched part. */
  function FileFromChunkId(id: string): (r: Option<string>)
    ensures r.Some? ==> r.value != [] && '\n' !in r.value
  {
    var t := MatchedPart(id);
    match Paths.LastIndex(t, '-')
    case None => None
    case Some(k) =>
      if 0 < k && k + 1 < |t| && '\n' !in t[..k] && AllDigits(t[k + 1..]) then Some(t[..k]) else None
  }

  /** `id` reads as `file`, a hyphen and `digits`, with possibly the one
      line feed that `$` lets through at the end. */
  predicate Splits(id: string, file: string, digits: string) {
    && file != [] && '\n' !in file
    && digits != [] && AllDigits(digits)
    && (id == file + "-" + digits || id == file + "-" + digits + "\n")
  }

  /** An id names a file exactly when it splits as `file-digits`: the
      parse finds every such split and nothing else. */
  lemma FileFromChunkIdSpec(id: string, file: string)
    ensures FileFromChunkId(id) == Some(file) <==> exists digits :: Splits(id, file, digits)
  {
    if FileFromChunkId(id) == Some(file) {
      var digits := FoundSplit(id);
    }
    forall digits | Splits(id, file, digits)
      ensures FileFromChunkId(id) == Some(file)
    {
      SplitFound(id, file, digits);
    }
  }

  /** What the parse returns is a split of the id. */
  lemma FoundSplit(id: string) returns (digits: string)
    requires FileFromChunkId(id).Some?
    ensures Splits(id, FileFromChunkId(id).value, digits)
  {
    var t := MatchedPart(id);
    var k := Paths.LastIndex(t, '-').value;
    digits := t[k + 1..];
    assert t == t[..k] + "-" + digits;
  }

  /** Every split of the id is the one the parse finds. */
  lemma SplitFound(id: string, file: string, digits: string)
    requires Splits(id, file, digits)
    ensures FileFromChunkId(id) == Some(file)
  {
    var t := file + "-" + digits;
    MatchedPartOf(id, t);
    DigitsHaveNoHyphen(digits);
    var k := |file|;
    assert t[k] == '-' && t[k + 1..] == digits && t[..k] == file;
    LastIndexOf(t, '-', k);
  }

  lemma MatchedPartOf(id: string, t: string)
    requires t != [] && t[|t| - 1] != '\n'
    requires id == t || id == t + "\n"
    ensures MatchedPart(id) == t
  {
    if id == t + "\n" {
      assert id[..|id| - 1] == t;
    }
  }

  lemma DigitsHaveNoHyphen(digits: string)
    requires AllDigits(digits)
    ensures '-' !in digits
  {
    forall i | 0 <= i < |digits|
      ensures digits[i] != '-'
    {
      assert Text.IsDigit(digits[i]);
    }
  }

  /** A position holding `c` with no `c` after it is the last one. */
  lemma {:induction false} LastIndexOf(s: string, c: char, k: nat)
    requires k < |s| && s[k] == c && c !in s[k + 1..]
    ensures Paths.LastIndex(s, c) == Some(k)
  {
    if k < |s| - 1 {
      var init := s[..|s| - 1];
      assert s[|s| - 1] == s[k + 1..][|s| - k - 2];
      assert init[k + 1..] == s[k + 1..][..|s| - k - 2];
      LastIndexOf(init, c, k);
    }
  }

  /** The file name ends just before the last `-` of the id. */
  lemma SplitAtLastHyphen(id: string)
    requires FileFromChunkId(id).Some?
    ensures var f := FileFromChunkId(id).value;
      |f| < |id| && id[|f|] == '-' && '-' !in id[|f| + 1..]
  {
    var t := MatchedPart(id);
    var k := Paths.LastIndex(t, '-').value;
    if t != id {
      assert id[|id| - 1] == '\n';
      assert id[k + 1..] == t[k + 1..] + "\n";
    }
  }

  /** A final line feed changes nothing: `$` matches in front of it. */
  lemma TrailingLineFeedIgnored(id: string)
    requires id == [] || id[|id| - 1] != '\n'
    ensures FileFromChunkId(id + "\n") == FileFromChunkId(id)
  {
    assert MatchedPart(id + "\n") == id by {
      assert (id + "\n")[..|id|] == id;
    }
  }

  /** The ids the chunkers give, the source stem, a hyphen and the chunk
      number, name that stem again. */
  lemma NumberedIdNamesStem(stem: string, n: nat)
    requires stem != [] && '\n' !in stem
    ensures FileFromChunkId(stem + "-" + Text.NatToString(n)) == Some(stem)
  {
    SplitFound(stem + "-" + Text.NatToString(n), stem, Text.NatToString(n));
  }

  // ---------------------------------------------------------------- paging

  /** The page size the counter asks for. */
  const Limit: nat := 1000

  /** One response of `fetch_objects`: the `chunk_id` property of each
      object, `JNull` where an object has none, and the three places the
      next cursor may be found, in the order they are tried. */
  datatype Page = Page(chunkIds: seq<Json.Json>, cursor: Option<string>, nextCursor: Option<string>, endCursor: Option<string>)

  predicate Truthy(c: Option<string>) {
    c.Some? && c.value != ""
  }

  /** `resp.cursor or resp.next_cursor or resp.page_info.end_cursor`, as a
      cursor the loop goes on with or none. */
  function NextCursor(p: Page): (c: Option<string>)
    ensures c.Some? <==> Truthy(p.cursor) || Truthy(p.nextCursor) || Truthy(p.endCursor)
    ensures c.Some? ==> c.value != ""
  {
    if Truthy(p.cursor) then p.cursor
    else if Truthy(p.nextCursor) then p.nextCursor
    else if Truthy(p.endCursor) then p.endCursor
    else None
  }

  /** The loop stops after a page without a next cursor or with fewer than
      `Limit` objects. */
  predicate LastPage(p: Page) {
    NextCursor(p).None? || |p.chunkIds| < Limit
  }

  /** `coll.query.fetch_objects(limit=1000, return_properties=["chunk_id"],
      after=cursor)` on the collection as it stands: the page after
      `cursor`, or the error the client raises. */
  type Fetch = Option<string> -> Result<Page>

  /** The paging stops, or fails, within `n` requests from `cursor`. */
  predicate Ends(fetch: Fetch, cursor: Option<string>, n: nat)
    decreases n
  {
    n > 0 &&
      match fetch(cursor)
      case Err(_) => true
      case Ok(p) => LastPage(p) || Ends(fetch, NextCursor(p), n - 1)
  }

  function Prepend(ps: seq<Page>, r: Result<seq<Page>>): Result<seq<Page>> {
    match r
    case Err(e) => Err(e)
    case Ok(qs) => Ok(ps + qs)
  }

  /** The pages the loop fetches from `cursor`, or the first error. */
  function Pages(fetch: Fetch, cursor: Option<string>, n: nat): Result<seq<Page>>
    requires Ends(fetch, cursor, n)
    decreases n
  {
    match fetch(cursor)
    case Err(e) => Err(e)
    case Ok(p) =>
      if LastPage(p) then Ok([p])
      else Prepend([p], Pages(fetch, NextCursor(p), n - 1))
  }

  /** The fetched pages form a chain: the first answers `cursor`, each
      later one answers the cursor of the page before it, every page but
      the last is full (it holds at least `Limit` objects) and has a next
      cursor, and the last one stops the loop. */
  lemma {:induction false} PagesChain(fetch: Fetch, cursor: Option<string>, n: nat)
    requires Ends(fetch, cursor, n) && Pages(fetch, cursor, n).Ok?
    ensures var ps := Pages(fetch, cursor, n).value;
      && ps != [] && fetch(cursor) == Ok(ps[0])
      && LastPage(ps[|ps| - 1])
      && (forall k :: 0 <= k < |ps| - 1 ==>
            |ps[k].chunkIds| >= Limit && NextCursor(ps[k]).Some? && fetch(NextCursor(ps[k])) == Ok(ps[k + 1]))
    decreases n
  {
    var p := fetch(cursor).value;
    if !LastPage(p) {
      var next := NextCursor(p);
      PagesChain(fetch, next, n - 1);
      var qs := Pages(fetch, next, n - 1).value;
      var ps := [p] + qs;
      assert Pages(fetch, cursor, n).value == ps;
      forall k | 0 <= k < |ps| - 1
        ensures |ps[k].chunkIds| >= Limit && NextCursor(ps[k]).Some? && fetch(NextCursor(ps[k])) == Ok(ps[k + 1])
      {
        if k > 0 {
          assert ps[k] == qs[k - 1] && ps[k + 1] == qs[k];
        } else {
          assert ps[0] == p && ps[1] == qs[0];
        }
      }
    }
  }

  /** The first request decides: its error, the one page that stops the
      loop, or that page followed by the pages from its cursor, within
      one request fewer. */
  lemma PagesFirst(fetch: Fetch, cursor: Option<string>, n: nat)
    requires Ends(fetch, cursor, n)
    ensures fetch(cursor).Err? ==> Pages(fetch, cursor, n) == Err(fetch(cursor).error)
    ensures fetch(cursor).Ok? && LastPage(fetch(cursor).value) ==> Pages(fetch, cursor, n) == Ok([fetch(cursor).value])
    ensures fetch(cursor).Ok? && !LastPage(fetch(cursor).value) ==>
      var p := fetch(cursor).value;
      n > 1 && Ends(fetch, NextCursor(p), n - 1) && Pages(fetch, cursor, n) == Prepend([p], Pages(fetch, NextCursor(p), n - 1))
  {
  }

  lemma PrependPrepend(a: seq<Page>, b: seq<Page>, r: Result<seq<Page>>)
    ensures Prepend(a, Prepend(b, r)) == Prepend(a + b, r)
  {
    if r.Ok? {
      assert a + (b + r.value) == (a + b) + r.value;
    }
  }

  // ---------------------------------------------------------------- counting

  /** The `chunk_id` values of the pages, in fetch order. */
  function Objects(ps: seq<Page>): seq<Json.Json> {
    if ps == [] then [] else Objects(ps[..|ps| - 1]) + ps[|ps| - 1].chunkIds
  }

  lemma ObjectsSnoc(ps: seq<Page>, p: Page)
    ensures Objects(ps + [p]) == Objects(ps) + p.chunkIds
  {
    assert (ps + [p])[..|ps|] == ps;
  }

  /** Counting one more page adds its objects to the total and their
      files to the per-file counts. */
  lemma CountsAfterPage(fetched: seq<Page>, page: Page, total0: nat, perFile0: multiset<string>, total: nat, perFile: multiset<string>)
    requires total0 == |Objects(fetched)| && perFile0 == Files(Objects(fetched))
    requires total == total0 + |page.chunkIds| && perFile == perFile0 + Files(page.chunkIds)
    ensures total == |Objects(fetched + [page])| && perFile == Files(Objects(fetched + [page]))
    ensures CountsOf(Ok(fetched + [page])) == Ok(Counts(total, perFile))
  {
    ObjectsSnoc(fetched, page);
    FilesAppend(Objects(fetched), page.chunkIds);
  }

  /** The file an object counts for: a string `chunk_id` that parses to a
      truthy file name. */
  function FileOf(v: Json.Json): Option<string> {
    if v.JStr? then
      match FileFromChunkId(v.s)
      case Some(f) => if f != "" then Some(f) else None
      case None => None
    else None
  }

  /** The file of each object, in order. */
  function FileList(ids: seq<Json.Json>): (fs: seq<Option<string>>)
    ensures |fs| == |ids|
  {
    if ids == [] then [] else FileList(ids[..|ids| - 1]) + [FileOf(ids[|ids| - 1])]
  }

  lemma {:induction false} FileListAt(ids: seq<Json.Json>, k: nat)
    requires k < |ids|
    ensures FileList(ids)[k] == FileOf(ids[k])
  {
    if k < |ids| - 1 {
      var init := ids[..|ids| - 1];
      FileListAt(init, k);
      assert ids[k] == init[k];
    }
  }

  lemma {:induction false} FileListAppend(a: seq<Json.Json>, b: seq<Json.Json>)
    ensures FileList(a + b) == FileList(a) + FileList(b)
    decreases |b|
  {
    if b == [] {
      assert a + b == a;
    } else {
      var init := b[..|b| - 1];
      assert (a + b)[..|a + b| - 1] == a + init;
      assert (a + b)[|a + b| - 1] == b[|b| - 1];
      FileListAppend(a, init);
    }
  }

  /** `per_file` after counting objects with these files: each file as
      many times as an object counted for it. */
  function Tally(fs: seq<Option<string>>): multiset<string> {
    if fs == [] then multiset{}
    else
      Tally(fs[..|fs| - 1])
        + match fs[|fs| - 1]
          case Some(f) => multiset{f}
          case None => multiset{}
  }

  /** `per_file` after counting `ids`. */
  function Files(ids: seq<Json.Json>): multiset<string> {
    Tally(FileList(ids))
  }

  /** `total` and `per_file`. */
  datatype Counts = Counts(total: nat, perFile: multiset<string>)

  /** What `collect_counts` returns for the fetched pages, or the error it
      raises. */
  function CountsOf(r: Result<seq<Page>>): Result<Counts> {
    match r
    case Err(e) => Err(e)
    case Ok(ps) => Ok(Counts(|Objects(ps)|, Files(Objects(ps))))
  }

  /** No file is counted more often than there are objects. */
  lemma CountsBound(r: Result<seq<Page>>)
    ensures CountsOf(r).Ok? ==> |CountsOf(r).value.perFile| <= CountsOf(r).value.total
  {
    if r.Ok? {
      TallyAtMost(FileList(Objects(r.value)));
    }
  }

  lemma {:induction false} TallyAppend(a: seq<Option<string>>, b: seq<Option<string>>)
    ensures Tally(a + b) == Tally(a) + Tally(b)
    decreases |b|
  {
    if b == [] {
      assert a + b == a;
    } else {
      var init := b[..|b| - 1];
      assert (a + b)[..|a + b| - 1] == a + init;
      assert (a + b)[|a + b| - 1] == b[|b| - 1];
      TallyAppend(a, init);
    }
  }

  /** Counting two runs of objects one after the other counts each. */
  lemma FilesAppend(a: seq<Json.Json>, b: seq<Json.Json>)
    ensures Files(a + b) == Files(a) + Files(b)
  {
    FileListAppend(a, b);
    TallyAppend(FileList(a), FileList(b));
  }

  /** One more object adds its file, if it has one. */
  lemma TallySnoc(fs: seq<Option<string>>, i: nat)
    requires i < |fs|
    ensures Tally(fs[..i + 1]) == Tally(fs[..i]) + if fs[i].Some? then multiset{fs[i].value} else multiset{}
  {
    assert fs[..i + 1][..i] == fs[..i];
    assert fs[..i + 1][i] == fs[i];
  }

  lemma {:induction false} TallyAtMost(fs: seq<Option<string>>)
    ensures |Tally(fs)| <= |fs|
  {
    if fs != [] {
      TallyAtMost(fs[..|fs| - 1]);
    }
  }

  lemma {:induction false} TallyCount(fs: seq<Option<string>>)
    ensures |Tally(fs)| <= |fs|
    ensures |Tally(fs)| == |fs| <==> forall k :: 0 <= k < |fs| ==> fs[k].Some?
  {
    if fs != [] {
      var init := fs[..|fs| - 1];
      TallyCount(init);
      if |Tally(fs)| == |fs| {
        assert |Tally(init)| == |init| && fs[|fs| - 1].Some?;
        forall k | 0 <= k < |fs|
          ensures fs[k].Some?
        {
          if k < |init| {
            assert fs[k] == init[k];
          }
        }
      }
      if forall k :: 0 <= k < |fs| ==> fs[k].Some? {
        forall k | 0 <= k < |init|
          ensures init[k].Some?
        {
          assert init[k] == fs[k];
        }
      }
    }
  }

  /** The counts add up to the objects whose id parses, which are at most
      all of them, and to all of them exactly when every id parses. */
  lemma FilesCount(ids: seq<Json.Json>)
    ensures |Files(ids)| <= |ids|
    ensures |Files(ids)| == |ids| <==> forall k :: 0 <= k < |ids| ==> FileOf(ids[k]).Some?
  {
    TallyCount(FileList(ids));
    forall k | 0 <= k < |ids| {
      FileListAt(ids, k);
    }
  }

  lemma {:induction false} TallyFrom(fs: seq<Option<string>>, f: string)
    requires f in Tally(fs)
    ensures exists k :: 0 <= k < |fs| && fs[k] == Some(f)
  {
    var init := fs[..|fs| - 1];
    if f in Tally(init) {
      TallyFrom(init, f);
      var k :| 0 <= k < |init| && init[k] == Some(f);
      assert fs[k] == init[k];
    } else {
      assert fs[|fs| - 1] == Some(f);
    }
  }

  /** Every counted file is the file of some object. */
  lemma FilesFrom(ids: seq<Json.Json>, f: string)
    requires f in Files(ids)
    ensures exists k :: 0 <= k < |ids| && FileOf(ids[k]) == Some(f)
  {
    TallyFrom(FileList(ids), f);
    var k :| 0 <= k < |ids| && FileList(ids)[k] == Some(f);
    FileListAt(ids, k);
  }

  /** The counting of one page's objects, as the inner `for` loop does it. */
  method CountPage(ids: seq<Json.Json>, total0: nat, perFile0: multiset<string>) returns (total: nat, perFile: multiset<string>)
    ensures total == total0 + |ids| && perFile == perFile0 + Files(ids)
  {
    ghost var fs := FileList(ids);
    total, perFile := total0, perFile0;
    for i := 0 to |ids|
      invariant total == total0 + i && perFile == perFile0 + Tally(fs[..i])
    {
      var chunkId := ids[i];
      TallySnoc(fs, i);
      FileListAt(ids, i);
      var fname := FileOf(chunkId);
      if fname.Some? {
        perFile := perFile + multiset{fname.value};
      }
      total := total + 1;
    }
    assert fs[..|ids|] == fs;
  }

  /** `collect_counts`: page through the collection from no cursor, count
      every object and, per file, the objects whose id parses; any error
      of the client ends the run with that error.  `bound` is a number of
      requests within which the paging is known to stop. */
  method CollectCounts(fetch: Fetch, ghost bound: nat) returns (r: Result<Counts>)
    requires Ends(fetch, None, bound)
    ensures r == CountsOf(Pages(fetch, None, bound))
  {
    var total: nat := 0;
    var perFile: multiset<string> := multiset{};
    var cursor: Option<string> := None;
    ghost var fetched: seq<Page> := [];
    ghost var rest := bound;
    assert Prepend(fetched, Pages(fetch, None, bound)) == Pages(fetch, None, bound) by {
      if Pages(fetch, None, bound).Ok? {
        assert [] + Pages(fetch, None, bound).value == Pages(fetch, None, bound).value;
      }
    }
    while true
      invariant Ends(fetch, cursor, rest)
      invariant Pages(fetch, None, bound) == Prepend(fetched, Pages(fetch, cursor, rest))
      invariant total == |Objects(fetched)| && perFile == Files(Objects(fetched))
      decreases rest
    {
      PagesFirst(fetch, cursor, rest);
      var resp := fetch(cursor);
      if resp.Err? {
        assert Pages(fetch, None, bound) == Err(resp.error);
        return Err(resp.error);
      }
      var page := resp.value;
      ghost var total0, perFile0 := total, perFile;
      total, perFile := CountPage(page.chunkIds, total, perFile);
      CountsAfterPage(fetched, page, total0, perFile0, total, perFile);
      var next := NextCursor(page);
      if next.None? || |page.chunkIds| < Limit {
        r := Ok(Counts(total, perFile));
        assert Pages(fetch, None, bound) == Ok(fetched + [page]);
        return;
      }
      PrependPrepend(fetched, [page], Pages(fetch, next, rest - 1));
      cursor, fetched, rest := next, fetched + [page], rest - 1;
    }
  }

  // ---------------------------------------------------------------- report

  /** Python's `<` on `str`: code-point order, a proper prefix first. */
  predicate Below(a: string, b: string)
    decreases |a|
  {
    b != [] && (a == [] || a[0] < b[0] || (a[0] == b[0] && Below(a[1..], b[1..])))
  }

  lemma {:induction false} BelowIrreflexive(a: string)
    ensures !Below(a, a)
    decreases |a|
  {
    if a != [] {
      BelowIrreflexive(a[1..]);
    }
  }

  lemma {:induction false} BelowTransitive(a: string, b: string, c: string)
    requires Below(a, b) && Below(b, c)
    ensures Below(a, c)
    decreases |a|
  {
    if a != [] && a[0] == b[0] && b[0] == c[0] {
      BelowTransitive(a[1..], b[1..], c[1..]);
    }
  }

  lemma {:induction false} BelowTotal(a: string, b: string)
    ensures a == b || Below(a, b) || Below(b, a)
    decreases |a|
  {
    if a != [] && b != [] && a[0] == b[0] {
      BelowTotal(a[1..], b[1..]);
      if a[1..] == b[1..] {
        assert a == [a[0]] + a[1..] && b == [b[0]] + b[1..];
      }
    }
  }

  /** `m` comes first among `keys`. */
  predicate IsLeast(m: string, keys: set<string>) {
    m in keys && forall y :: y in keys ==> !Below(y, m)
  }

  lemma {:induction false} LeastExists(keys: set<string>) returns (m: string)
    requires keys != {}
    ensures IsLeast(m, keys)
    decreases |keys|
  {
    var x :| x in keys;
    if keys == {x} {
      m := x;
      BelowIrreflexive(x);
    } else {
      var m' := LeastExists(keys - {x});
      if Below(x, m') {
        m := x;
        forall y | y in keys
          ensures !Below(y, x)
        {
          if y == x {
            BelowIrreflexive(x);
          } else if Below(y, x) {
            BelowTransitive(y, x, m');
          }
        }
      } else {
        m := m';
      }
    }
  }

  lemma SomeLeast(keys: set<string>)
    requires keys != {}
    ensures exists m :: IsLeast(m, keys)
  {
    var m := LeastExists(keys);
  }

  lemma LeastUnique(keys: set<string>)
    ensures forall a, b :: IsLeast(a, keys) && IsLeast(b, keys) ==> a == b
  {
    forall a, b | IsLeast(a, keys) && IsLeast(b, keys)
      ensures a == b
    {
      BelowTotal(a, b);
    }
  }

  /** `sorted(keys)` */
  function Sorted(keys: set<string>): seq<string>
    decreases |keys|
  {
    if keys == {} then []
    else
      SomeLeast(keys);
      LeastUnique(keys);
      var m :| IsLeast(m, keys);
      [m] + Sorted(keys - {m})
  }

  /** `files` lists the keys of `counts`, each once, in ascending order. */
  ghost predicate ListsInOrder(files: seq<string>, keys: set<string>) {
    && (forall f :: f in files <==> f in keys)
    && (forall i, j :: 0 <= i < j < |files| ==> Below(files[i], files[j]))
  }

  /** Sorting lists every key once, in ascending order. */
  lemma {:induction false} SortedSpec(keys: set<string>)
    ensures ListsInOrder(Sorted(keys), keys)
    decreases |keys|
  {
    if keys != {} {
      var least := LeastExists(keys);
      LeastUnique(keys);
      var fs := Sorted(keys);
      var m := fs[0];
      var rest := Sorted(keys - {m});
      assert fs == [m] + rest && IsLeast(m, keys);
      SortedSpec(keys - {m});
      forall j | 0 < j < |fs|
        ensures Below(m, fs[j])
      {
        assert fs[j] == rest[j - 1];
        assert fs[j] in keys - {m};
        assert !Below(fs[j], m);
        BelowTotal(m, fs[j]);
      }
      forall i, j | 0 <= i < j < |fs|
        ensures Below(fs[i], fs[j])
      {
        if i > 0 {
          assert fs[i] == rest[i - 1] && fs[j] == rest[j - 1];
        }
      }
    }
  }

  /** The line printed for one file. */
  function CountLine(file: string, count: nat): string {
    file + " (" + Text.NatToString(count) + ")"
  }

  function CountLines(files: seq<string>, perFile: multiset<string>): (lines: seq<string>)
    ensures |lines| == |files|
  {
    seq(|files|, i requires 0 <= i < |files| => CountLine(files[i], perFile[files[i]]))
  }

  /** The exit code and the lines written to standard output and error. */
  datatype Exit = Exit(code: int, stdout: seq<string>, stderr: seq<string>)

  /** `main` once `collect_counts` has returned or raised. */
  function Report(collection: string, r: Result<Counts>): Exit {
    match r
    case Err(e) => Exit(1, [], ["Erreur: " + e])
    case Ok(c) =>
      var files := Sorted(set f | f in c.perFile);
      Exit(0, ["Total d'objets dans '" + collection + "': " + Text.NatToString(c.total)] + CountLines(files, c.perFile), [])
  }

  /** The run succeeds exactly when counting did; it prints the total, then
      one line per counted file with its count, the files ascending; a
      failure prints the error and exits with 1. */
  lemma ReportSpec(collection: string, r: Result<Counts>)
    ensures var x := Report(collection, r);
      && (x.code == 0 <==> r.Ok?)
      && (r.Err? ==> x.code == 1 && x.stdout == [] && x.stderr == ["Erreur: " + r.error])
      && (r.Ok? ==>
            && x.stderr == [] && |x.stdout| >= 1
            && x.stdout[0] == "Total d'objets dans '" + collection + "': " + Text.NatToString(r.value.total)
            && exists files :: ListsInOrder(files, set f | f in r.value.perFile)
                                 && x.stdout[1..] == CountLines(files, r.value.perFile))
  {
    if r.Ok? {
      var keys := set f | f in r.value.perFile;
      SortedSpec(keys);
      var x := Report(collection, r);
      assert x.stdout[1..] == CountLines(Sorted(keys), r.value.perFile);
    }
  }
}
