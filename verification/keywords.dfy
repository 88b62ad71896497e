/** The frequency-based keyword extractor shared by the three Markdown
    chunkers: lower-case, find the runs of letters, digits and hyphens,
    drop short, stop-listed and numeric tokens, then take the most common
    ones, ties going to the earlier first occurrence. */
module Keywords {
  import Text
  import Sorting

  /** Membership in the bilingual (English/French) stop set. */
  predicate IsStopword(t: string) {
    t == "the" || t == "and" || t == "for" || t == "with" || t == "that" || t == "this"
    || t == "these" || t == "those" || t == "are" || t == "was" || t == "were" || t == "has"
    || t == "have" || t == "had" || t == "but" || t == "not" || t == "you" || t == "your"
    || t == "yours" || t == "from" || t == "they" || t == "their" || t == "them" || t == "a"
    || t == "an" || t == "in" || t == "on" || t == "of" || t == "to" || t == "is"
    || t == "it" || t == "as" || t == "be" || t == "by" || t == "or" || t == "if"
    || t == "we" || t == "our" || t == "us" || t == "at" || t == "can" || t == "could"
    || t == "should" || t == "would" || t == "may" || t == "might" || t == "will" || t == "shall"
    || t == "do" || t == "does" || t == "did" || t == "so" || t == "than" || t == "then"
    || t == "there" || t == "here" || t == "also" || t == "into" || t == "out" || t == "up"
    || t == "down" || t == "le" || t == "la" || t == "les" || t == "un" || t == "une"
    || t == "des" || t == "du" || t == "de" || t == "d" || t == "au" || t == "aux"
    || t == "et" || t == "ou" || t == "mais" || t == "ne" || t == "pas" || t == "plus"
    || t == "pour" || t == "par" || t == "dans" || t == "sur" || t == "ce" || t == "cet"
    || t == "cette" || t == "ces" || t == "se" || t == "sa" || t == "son" || t == "ses"
    || t == "leur" || t == "leurs" || t == "qui" || t == "que" || t == "quoi" || t == "dont"
    || t == "o\U{F9}" || t == "quand" || t == "comme" || t == "ainsi" || t == "est" || t == "sont"
    || t == "\U{E9}taient" || t == "\U{E9}tait" || t == "\U{E9}t\U{E9}" || t == "\U{EA}tre" || t == "ont" || t == "avait"
    || t == "avec" || t == "sans" || t == "entre" || t == "vers" || t == "chez" || t == "sous"
    || t == "apr\U{E8}s" || t == "avant"
  }

  /** The character class `[A-Za-zÀ-ÖØ-öø-ÿ0-9\-]`. */
  predicate IsKeywordChar(c: char) {
    ('A' <= c <= 'Z') || ('a' <= c <= 'z') || ('\U{C0}' <= c <= '\U{D6}')
    || ('\U{D8}' <= c <= '\U{F6}') || ('\U{F8}' <= c <= '\U{FF}') || Text.IsDigit(c) || c == '-'
  }

  predicate IsToken(t: string) {
    t != "" && forall i :: 0 <= i < |t| ==> IsKeywordChar(t[i])
  }

  function RunLength(s: string): (n: nat)
    ensures n <= |s|
    ensures forall i :: 0 <= i < n ==> IsKeywordChar(s[i])
    ensures n == |s| || !IsKeywordChar(s[n])
  {
    if s == [] || !IsKeywordChar(s[0]) then 0 else 1 + RunLength(s[1..])
  }

  /** `re.findall` of the class with `+`: its maximal runs, in order. */
  function Tokens(s: string): (ts: seq<string>)
    ensures forall k :: 0 <= k < |ts| ==> IsToken(ts[k])
    decreases |s|
  {
    if s == [] then []
    else if !IsKeywordChar(s[0]) then Tokens(s[1..])
    else
      var n := RunLength(s);
      [s[..n]] + Tokens(s[n..])
  }

  /** `t.isdigit()` for a token of the class: only ASCII digits. */
  predicate AllDigits(t: string) {
    t != "" && forall i :: 0 <= i < |t| ==> Text.IsDigit(t[i])
  }

  /** The filter `len(t) >= 3 and t not in STOPWORDS and not t.isdigit()`. */
  predicate IsCandidate(t: string) {
    |t| >= 3 && !IsStopword(t) && !AllDigits(t)
  }

  function Filter(ts: seq<string>): seq<string> {
    if ts == [] then []
    else
      var rest := Filter(ts[1..]);
      if IsCandidate(ts[0]) then [ts[0]] + rest else rest
  }

  /** The filter keeps exactly the candidates. */
  lemma {:induction false} FilterSpec(ts: seq<string>)
    ensures forall k :: 0 <= k < |Filter(ts)| ==> IsCandidate(Filter(ts)[k])
    ensures forall t :: t in Filter(ts) <==> t in ts && IsCandidate(t)
  {
    if ts != [] {
      assert ts == [ts[0]] + ts[1..];
      FilterSpec(ts[1..]);
    }
  }

  /** The tokens the counter sees. */
  function Candidates(text: string): seq<string> {
    Filter(Tokens(Text.Lower(text)))
  }

  function Count(ts: seq<string>, t: string): nat {
    if ts == [] then 0 else (if ts[0] == t then 1 else 0) + Count(ts[1..], t)
  }

  /** The distinct tokens in order of first occurrence: the key order of
      `Counter(tokens)`. */
  function Distinct(ts: seq<string>): (ds: seq<string>)
    ensures Sorting.NoDups(ds)
    ensures forall t :: t in ds <==> t in ts
  {
    if ts == [] then []
    else
      var d := Distinct(ts[..|ts| - 1]);
      assert ts == ts[..|ts| - 1] + [ts[|ts| - 1]];
      if ts[|ts| - 1] in d then d else d + [ts[|ts| - 1]]
  }

  /** `Counter.most_common` orders by count, highest first; sorting by the
      negated count keeps it a stable ascending sort. */
  function ByCount(ts: seq<string>): string -> int {
    (t: string) => -(Count(ts, t) as int)
  }

  /** `extract_keywords(text, top_n)` */
  function ExtractKeywords(text: string, topN: nat): seq<string> {
    var cands := Candidates(text);
    if cands == [] then []
    else
      var ranked := Sorting.SortByKey(Distinct(cands), ByCount(cands));
      ranked[..if topN < |ranked| then topN else |ranked|]
  }

  /** `Distinct` keeps first-occurrence order. */
  lemma {:induction false} DistinctOrder(ts: seq<string>, a: string, b: string)
    requires a in ts && b in ts
    ensures Sorting.IndexOf(Distinct(ts), a) < Sorting.IndexOf(Distinct(ts), b)
            <==> Sorting.IndexOf(ts, a) < Sorting.IndexOf(ts, b)
  {
    var init := ts[..|ts| - 1];
    var z := ts[|ts| - 1];
    assert ts == init + [z];
    var d := Distinct(init);
    IndexOfSnoc(init, z, a);
    IndexOfSnoc(init, z, b);
    if a in init && b in init {
      DistinctOrder(init, a, b);
      if z !in d {
        IndexOfSnoc(d, z, a);
        IndexOfSnoc(d, z, b);
      }
    } else if a in init {
      IndexOfSnoc(d, z, a);
    } else if b in init {
      IndexOfSnoc(d, z, b);
    }
  }

  /** Appending an element moves no first occurrence. */
  lemma {:induction false} IndexOfSnoc(xs: seq<string>, z: string, a: string)
    requires a in xs + [z]
    ensures a in xs ==> Sorting.IndexOf(xs + [z], a) == Sorting.IndexOf(xs, a)
    ensures a !in xs ==> Sorting.IndexOf(xs + [z], a) == |xs|
  {
    var i := Sorting.IndexOf(xs + [z], a);
    if a in xs {
      var j := Sorting.IndexOf(xs, a);
      assert (xs + [z])[j] == a;
      assert (xs + [z])[..i] == xs[..i] by { assert i <= j; }
    } else {
      assert (xs + [z])[..|xs|] == xs;
    }
  }

  /** The distinct candidates, most frequent first. */
  function Ranked(text: string): seq<string> {
    var cands := Candidates(text);
    Sorting.SortByKey(Distinct(cands), ByCount(cands))
  }

  lemma {:induction false} ExtractKeywordsIsPrefix(text: string, topN: nat)
    ensures var r := ExtractKeywords(text, topN);
      var s := Ranked(text);
      |r| <= |s| && r == s[..|r|] && (|r| == topN || |r| == |s|)
  {
  }

  /** At most `topN` distinct tokens, each one a candidate: at least three
      characters, not stop-listed, not numeric. */
  lemma {:induction false} ExtractKeywordsCandidates(text: string, topN: nat)
    ensures var r := ExtractKeywords(text, topN);
      && |r| <= topN
      && Sorting.NoDups(r)
      && (forall k :: 0 <= k < |r| ==> IsCandidate(r[k]) && r[k] in Candidates(text))
  {
    var r := ExtractKeywords(text, topN);
    var c := Candidates(text);
    var s := Ranked(text);
    ExtractKeywordsIsPrefix(text, topN);
    FilterSpec(Tokens(Text.Lower(text)));
    Sorting.SortByKeyNoDups(Distinct(c), ByCount(c));
    forall k | 0 <= k < |r| ensures IsCandidate(r[k]) && r[k] in c {
      assert r[k] == s[k];
      assert s[k] in Distinct(c);
    }
  }

  /** Decreasing counts, equal counts in order of first occurrence. */
  lemma {:induction false} ExtractKeywordsOrder(text: string, topN: nat)
    ensures var r := ExtractKeywords(text, topN);
      var c := Candidates(text);
      && (forall i, j :: 0 <= i < j < |r| ==> Count(c, r[i]) >= Count(c, r[j]))
      && (forall i, j :: 0 <= i < j < |r| && Count(c, r[i]) == Count(c, r[j]) ==>
            Sorting.IndexOf(c, r[i]) < Sorting.IndexOf(c, r[j]))
  {
    var r := ExtractKeywords(text, topN);
    var c := Candidates(text);
    var d := Distinct(c);
    var key := ByCount(c);
    var s := Ranked(text);
    ExtractKeywordsIsPrefix(text, topN);
    Sorting.SortByKeySorted(d, key);
    Sorting.SortByKeyNoDups(d, key);
    forall i, j | 0 <= i < j < |r| ensures Count(c, r[i]) >= Count(c, r[j]) {
      assert key(s[i]) <= key(s[j]);
    }
    forall i, j | 0 <= i < j < |r| && Count(c, r[i]) == Count(c, r[j])
      ensures Sorting.IndexOf(c, r[i]) < Sorting.IndexOf(c, r[j])
    {
      assert s[i] in d && s[j] in d;
      Sorting.SortByKeyStable(d, key, s[i], s[j]);
      IndexOfNoDups(s, i);
      IndexOfNoDups(s, j);
      DistinctOrder(c, s[i], s[j]);
    }
  }

  /** A candidate left out means `topN` were taken, none of them rarer. */
  lemma {:induction false} ExtractKeywordsComplete(text: string, topN: nat, t: string)
    requires t in Candidates(text) && t !in ExtractKeywords(text, topN)
    ensures var r := ExtractKeywords(text, topN);
      |r| == topN && (topN > 0 ==> Count(Candidates(text), t) <= Count(Candidates(text), r[|r| - 1]))
  {
    var r := ExtractKeywords(text, topN);
    var c := Candidates(text);
    var d := Distinct(c);
    var key := ByCount(c);
    var s := Ranked(text);
    ExtractKeywordsIsPrefix(text, topN);
    Sorting.SortByKeySorted(d, key);
    var m := Sorting.IndexOf(d, t);
    assert t in s;
    var p := Sorting.IndexOf(s, t);
    assert forall q :: 0 <= q < |r| ==> s[q] == r[q] && r[q] != t;
    assert |r| > 0 ==> key(s[|r| - 1]) <= key(s[p]);
  }

  lemma {:induction false} IndexOfNoDups(s: seq<string>, i: nat)
    requires Sorting.NoDups(s) && i < |s|
    ensures Sorting.IndexOf(s, s[i]) == i
  {
    var j := Sorting.IndexOf(s, s[i]);
    assert s[j] == s[i];
  }
}
