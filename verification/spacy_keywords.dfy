/** The keyword-candidate helpers shared by the two spaCy keyword scripts
    (`collect_keywords.py` and `collect_keywords_from_md.py`): token
    filtering, sliding n-grams, phrase validity, quoted and emphasised
    names, candidate scoring, keyword selection, the choice of model and
    the two line loops.  spaCy itself is an oracle: `nlp` maps a text to
    its document (tokens, entities and noun chunks). */
module SpacyKeywords {
  import opened Wrappers
  import Text
  import Json
  import Keywords
  import Sorting

  // ---------------------------------------------------------------- tokens

  /** The token attributes the scripts read: `text`, `lemma_`, `pos_` and
      the `is_*` / `like_num` flags. */
  datatype Token = Token(text: string, lemmaForm: string, pos: string,
                         isSpace: bool, isPunct: bool, isQuote: bool, likeNum: bool,
                         isStop: bool, isAlpha: bool)

  /** A named entity: its tokens and its label `ent.label_` (`tag`). */
  datatype Entity = Entity(tokens: seq<Token>, tag: string)

  /** What `nlp(text)` gives: the tokens, the named entities and the noun
      chunks.  A pipeline without a parser makes `doc.noun_chunks` raise,
      which the `hasattr` test does not catch; that failure is not part of
      this model, so every document here has its noun chunks. */
  datatype Doc = Doc(tokens: seq<Token>, ents: seq<Entity>, nounChunks: seq<seq<Token>>)

  type Fields = seq<(string, Json.Json)>

  /** A content part of speech: noun, proper noun or adjective. */
  predicate ContentPos(pos: string) {
    pos == "NOUN" || pos == "PROPN" || pos == "ADJ"
  }

  /** A normalised token: non-empty, stripped, with no ASCII capital. */
  predicate Clean(w: string) {
    && w != ""
    && !Text.IsSpace(w[0]) && !Text.IsSpace(w[|w| - 1])
    && forall i :: 0 <= i < |w| ==> !('A' <= w[i] <= 'Z')
  }

  /** `(t.lemma_ or t.text).strip().lower()` */
  function LemmaOf(t: Token): string {
    Text.Lower(Text.Strip(if t.lemmaForm != "" then t.lemmaForm else t.text))
  }

  /** The body of the token loop of `_normalize_tokens`: the lemma it keeps,
      if any. */
  function NormalizeToken(t: Token): Option<string> {
    if t.isSpace || t.isPunct || t.isQuote || t.likeNum then None
    else if t.isStop then None
    else if !(ContentPos(t.pos) || t.isAlpha) then None
    else
      var form := LemmaOf(t);
      if form == "" then None else Some(form)
  }

  /** What `_normalize_tokens(tokens)` returns. */
  function Normalized(tokens: seq<Token>): seq<string> {
    if tokens == [] then []
    else
      Normalized(tokens[..|tokens| - 1])
      + (match NormalizeToken(tokens[|tokens| - 1]) case Some(w) => [w] case None => [])
  }

  /** Lower-casing keeps a character that is not whitespace a character
      that is not whitespace, and leaves no ASCII capital. */
  lemma LowerCharSpec(c: char)
    ensures !Text.IsSpace(c) ==> !Text.IsSpace(Text.LowerChar(c))
    ensures !('A' <= Text.LowerChar(c) <= 'Z')
  {
  }

  /** Lower-casing a stripped, non-empty string gives a clean one. */
  lemma {:induction false} LowerClean(s: string)
    requires s != "" && !Text.IsSpace(s[0]) && !Text.IsSpace(s[|s| - 1])
    ensures Clean(Text.Lower(s))
  {
    var w := Text.Lower(s);
    LowerCharSpec(s[0]);
    LowerCharSpec(s[|s| - 1]);
    forall i | 0 <= i < |w| ensures !('A' <= w[i] <= 'Z') {
      LowerCharSpec(s[i]);
    }
  }

  /** Stripping then lower-casing gives a clean string or an empty one. */
  lemma {:induction false} LowerStripClean(raw: string)
    ensures Text.Lower(Text.Strip(raw)) != "" ==> Clean(Text.Lower(Text.Strip(raw)))
  {
    var st := Text.Strip(raw);
    assert |Text.Lower(st)| == |st|;
    if st != "" {
      Text.StripSpec(raw);
      LowerClean(st);
    }
  }

  /** A non-empty lemma is clean. */
  lemma {:induction false} LemmaOfClean(t: Token)
    ensures LemmaOf(t) != "" ==> Clean(LemmaOf(t))
  {
    LowerStripClean(if t.lemmaForm != "" then t.lemmaForm else t.text);
  }

  /** A kept lemma is clean. */
  lemma {:induction false} NormalizeTokenClean(t: Token)
    ensures NormalizeToken(t).Some? ==> Clean(NormalizeToken(t).value)
  {
    LemmaOfClean(t);
  }

  /** `_normalize_tokens` keeps at most one lemma per token, each one clean,
      and a token it drops contributes nothing. */
  lemma {:induction false} NormalizedSpec(tokens: seq<Token>)
    ensures |Normalized(tokens)| <= |tokens|
    ensures forall w :: w in Normalized(tokens) ==> Clean(w)
  {
    if tokens != [] {
      NormalizedSpec(tokens[..|tokens| - 1]);
      NormalizeTokenClean(tokens[|tokens| - 1]);
    }
  }

  /** Normalising a concatenation normalises each part: every token is
      judged on its own. */
  lemma {:induction false} NormalizedAppend(a: seq<Token>, b: seq<Token>)
    ensures Normalized(a + b) == Normalized(a) + Normalized(b)
    decreases |b|
  {
    if b != [] {
      var init := b[..|b| - 1];
      assert (a + b)[..|a + b| - 1] == a + init;
      NormalizedAppend(a, init);
    } else {
      assert a + b == a;
    }
  }

  lemma NormalizedStep(tokens: seq<Token>, i: nat)
    requires i < |tokens|
    ensures Normalized(tokens[..i + 1])
            == Normalized(tokens[..i]) + (match NormalizeToken(tokens[i]) case Some(w) => [w] case None => [])
  {
    assert tokens[..i + 1][..i] == tokens[..i];
  }

  /** `_normalize_tokens(tokens)` */
  method NormalizeTokens(tokens: seq<Token>) returns (norm: seq<string>)
    ensures norm == Normalized(tokens)
  {
    norm := [];
    for i := 0 to |tokens|
      invariant norm == Normalized(tokens[..i])
    {
      NormalizedStep(tokens, i);
      var t := tokens[i];
      if t.isSpace || t.isPunct || t.isQuote || t.likeNum {
        assert norm + [] == norm;
        continue;
      }
      if t.isStop {
        assert norm + [] == norm;
        continue;
      }
      if !(ContentPos(t.pos) || t.isAlpha) {
        assert norm + [] == norm;
        continue;
      }
      var form := Text.Lower(Text.Strip(if t.lemmaForm != "" then t.lemmaForm else t.text));
      if form == "" {
        assert norm + [] == norm;
        continue;
      }
      norm := norm + [form];
    }
    assert tokens[..|tokens|] == tokens;
  }

  // ---------------------------------------------------------------- tokens with missing attributes

  /** A token as `collect_keywords_from_md.py` reads it, through `getattr`
      with a default: each attribute may be missing (`None`). */
  datatype RawToken = RawToken(text: Option<string>, lemmaForm: Option<string>, pos: Option<string>,
                               isSpace: Option<bool>, isPunct: Option<bool>, isQuote: Option<bool>,
                               likeNum: Option<bool>, isStop: Option<bool>, isAlpha: Option<bool>)

  /** `getattr(t, name, False)` */
  predicate Flag(attr: Option<bool>) {
    attr == Some(true)
  }

  /** `getattr(t, name, "")` */
  function StrAttr(attr: Option<string>): string {
    if attr.Some? then attr.value else ""
  }

  /** The body of the token loop of the Markdown variant of
      `_normalize_tokens`. */
  function NormalizeRawToken(t: RawToken): Option<string> {
    if Flag(t.isSpace) || Flag(t.isPunct) || Flag(t.isQuote) || Flag(t.likeNum) then None
    else if Flag(t.isStop) then None
    else
      var pos := StrAttr(t.pos);
      if !(pos in {"NOUN", "PROPN", "ADJ"} || Flag(t.isAlpha)) then None
      else
        var form := Text.Lower(Text.Strip(if t.lemmaForm.Some? && t.lemmaForm.value != "" then t.lemmaForm.value else StrAttr(t.text)));
        if form == "" then None else Some(form)
  }

  /** The token a missing attribute stands for: false flags, empty strings. */
  function WithDefaults(t: RawToken): Token {
    Token(StrAttr(t.text), StrAttr(t.lemmaForm), StrAttr(t.pos),
          Flag(t.isSpace), Flag(t.isPunct), Flag(t.isQuote), Flag(t.likeNum), Flag(t.isStop), Flag(t.isAlpha))
  }

  /** The Markdown variant filters a token exactly as the plain one filters
      the token with its missing attributes defaulted. */
  lemma {:induction false} RawTokenDefaults(t: RawToken)
    ensures NormalizeRawToken(t) == NormalizeToken(WithDefaults(t))
  {
    var pos := StrAttr(t.pos);
    assert pos in {"NOUN", "PROPN", "ADJ"} <==> ContentPos(pos);
  }

  function Resolved(raws: seq<RawToken>): (ts: seq<Token>)
    ensures |ts| == |raws| && forall i :: 0 <= i < |raws| ==> ts[i] == WithDefaults(raws[i])
  {
    seq(|raws|, i requires 0 <= i < |raws| => WithDefaults(raws[i]))
  }

  /** `_normalize_tokens(tokens)` of `collect_keywords_from_md.py`. */
  method NormalizeRawTokens(raws: seq<RawToken>) returns (norm: seq<string>)
    ensures norm == Normalized(Resolved(raws))
  {
    norm := [];
    for i := 0 to |raws|
      invariant norm == Normalized(Resolved(raws)[..i])
    {
      assert Resolved(raws)[..i + 1][..i] == Resolved(raws)[..i];
      RawTokenDefaults(raws[i]);
      match NormalizeRawToken(raws[i]) {
        case None =>
          assert norm + [] == norm;
        case Some(form) =>
          norm := norm + [form];
      }
    }
    assert Resolved(raws)[..|raws|] == Resolved(raws);
  }

  // ---------------------------------------------------------------- n-grams and phrases

  /** `_sliding_ngrams(tokens, n)`: the windows `tokens[i:i+n]` for `i` in
      `range(0, len(tokens) - n + 1)`. */
  function SlidingNgrams<T>(tokens: seq<T>, n: nat): (wins: seq<seq<T>>)
    ensures |wins| == if |tokens| >= n then |tokens| - n + 1 else 0
    ensures forall i :: 0 <= i < |wins| ==> |wins[i]| == n
  {
    if |tokens| < n then []
    else seq(|tokens| - n + 1, i requires 0 <= i < |tokens| - n + 1 => tokens[i..i + n])
  }

  /** Consecutive windows overlap in all but one token. */
  lemma {:induction false} SlidingNgramsOverlap<T>(tokens: seq<T>, n: nat)
    requires n >= 1
    ensures var wins := SlidingNgrams(tokens, n);
      forall i :: 0 <= i < |wins| - 1 ==> wins[i][1..] == wins[i + 1][..n - 1]
  {
    var wins := SlidingNgrams(tokens, n);
    forall i | 0 <= i < |wins| - 1 ensures wins[i][1..] == wins[i + 1][..n - 1] {
      assert wins[i] == tokens[i..i + n];
      assert wins[i + 1] == tokens[i + 1..i + 1 + n];
    }
  }

  /** When there is a window, every token lies in one, at its place: the
      `j`-th token is the first of window `j`, or lies in the last window. */
  lemma {:induction false} SlidingNgramsCover<T>(tokens: seq<T>, n: nat)
    requires n >= 1
    ensures var wins := SlidingNgrams(tokens, n);
      |tokens| >= n ==>
        forall j :: 0 <= j < |tokens| ==>
          var i := if j < |wins| then j else |wins| - 1;
          i <= j < i + n && wins[i][j - i] == tokens[j]
  {
    var wins := SlidingNgrams(tokens, n);
    if |tokens| >= n {
      forall j | 0 <= j < |tokens|
        ensures var i := if j < |wins| then j else |wins| - 1;
          i <= j < i + n && wins[i][j - i] == tokens[j]
      {
        var i := if j < |wins| then j else |wins| - 1;
        assert wins[i] == tokens[i..i + n];
      }
    }
  }

  /** `s.replace(" ", "")` */
  function RemoveSpaces(s: string): (r: string)
    ensures ' ' !in r && |r| <= |s|
  {
    if s == "" then ""
    else RemoveSpaces(s[..|s| - 1]) + (if s[|s| - 1] == ' ' then "" else [s[|s| - 1]])
  }

  /** `_valid_phrase(s)`: at least three characters besides spaces. */
  predicate ValidPhrase(s: string) {
    |RemoveSpaces(s)| >= 3
  }

  lemma {:induction false} RemoveSpacesAppend(a: string, b: string)
    ensures RemoveSpaces(a + b) == RemoveSpaces(a) + RemoveSpaces(b)
    decreases |b|
  {
    if b == "" {
      assert a + b == a;
    } else {
      assert (a + b)[..|a + b| - 1] == a + b[..|b| - 1];
      RemoveSpacesAppend(a, b[..|b| - 1]);
    }
  }

  lemma {:induction false} RemoveSpacesKeeps(s: string)
    requires ' ' !in s
    ensures RemoveSpaces(s) == s
  {
    if s != "" {
      var init := s[..|s| - 1];
      assert ' ' !in init by {
        forall k | 0 <= k < |init| ensures init[k] != ' ' {
          assert init[k] == s[k];
        }
      }
      RemoveSpacesKeeps(init);
      var last := s[|s| - 1];
      assert last != ' ' by {
        assert last == s[|s| - 1];
      }
      calc {
        RemoveSpaces(s);
        RemoveSpaces(init) + [last];
        init + [last];
        { assert init + [last] == s; }
        s;
      }
    }
  }

  lemma RemoveSpacesSpace()
    ensures RemoveSpaces(" ") == ""
  {
    assert " "[..0] == "";
  }

  /** Dropping the spaces of `j + " " + w`, for a word `w` without spaces,
      leaves those of `j` followed by `w`. */
  lemma {:induction false} RemoveSpacesSep(j: string, w: string)
    requires ' ' !in w
    ensures RemoveSpaces(j + " " + w) == RemoveSpaces(j) + w
  {
    var js := j + " ";
    RemoveSpacesAppend(js, w);
    RemoveSpacesAppend(j, " ");
    RemoveSpacesSpace();
    RemoveSpacesKeeps(w);
    assert RemoveSpaces(js) == RemoveSpaces(j);
  }

  /** A phrase is valid by the characters of its words: the separating
      spaces do not count. */
  lemma {:induction false} ValidPhraseJoin(words: seq<string>, w: string)
    requires |words| >= 1 && ' ' !in w
    ensures RemoveSpaces(Text.Join(" ", words + [w])) == RemoveSpaces(Text.Join(" ", words)) + w
  {
    Text.JoinAppend(" ", words, w);
    RemoveSpacesSep(Text.Join(" ", words), w);
  }

  /** A single word is valid from three characters. */
  lemma {:induction false} ValidWord(w: string)
    requires ' ' !in w
    ensures ValidPhrase(w) <==> |w| >= 3
  {
    RemoveSpacesKeeps(w);
  }

  // ---------------------------------------------------------------- quoted and emphasised names

  /** One of the regular expressions `O([^S\n]{2,})C`: an opening string, a
      body of at least two characters that are neither `stop` nor a line
      break, and a closing string that starts with `stop`.  `padded` adds
      `\s*` after the opening and before the closing string, as in the
      guillemet pattern. */
  datatype Pattern = Pattern(open: string, stop: char, close: string, padded: bool)

  /** The patterns of `_extract_quoted_names`, in order: `"…"`, `“…”`,
      `« … »`. */
  const QuotePatterns: seq<Pattern> := [
    Pattern("\"", '"', "\"", false),
    Pattern("\U{201C}", '\U{201D}', "\U{201D}", false),
    Pattern("\U{AB}", '\U{BB}', "\U{BB}", true)
  ]

  /** The Markdown emphasis patterns `**…**`, `*…*`, `__…__`, `_…_`. */
  const EmphasisPatterns: seq<Pattern> := [
    Pattern("**", '*', "**", false),
    Pattern("*", '*', "*", false),
    Pattern("__", '_', "__", false),
    Pattern("_", '_', "_", false)
  ]

  /** The seven patterns of `_extract_quoted_or_markdown_names`, in order. */
  const MarkdownPatterns: seq<Pattern> := QuotePatterns + EmphasisPatterns

  /** The length of the longest prefix of `s` made of body characters. */
  function BodyLength(s: string, stop: char): (n: nat)
    ensures n <= |s|
    ensures forall i :: 0 <= i < n ==> s[i] != stop && s[i] != '\n'
  {
    if s == "" || s[0] == stop || s[0] == '\n' then 0 else 1 + BodyLength(s[1..], stop)
  }

  /** The length of the longest prefix of `s` matched by `\s*`. */
  function SpaceLength(s: string): (n: nat)
    ensures n <= |s|
  {
    if s == "" || !Text.IsSpace(s[0]) then 0 else 1 + SpaceLength(s[1..])
  }

  /** The match of `pat` that starts at `p`, as its captured group and the
      position after it.  The body is greedy and backtracking never helps,
      since what follows the longest body is a `stop`, a line break or the
      end; in the guillemet pattern the leading `\s*` may also give back
      whitespace, which yields a capture that strips to fewer than two
      characters and is dropped by the caller, so it is not modelled. */
  function MatchAt(text: string, p: nat, pat: Pattern): (m: Option<(string, nat)>)
    requires p <= |text|
    ensures m.Some? ==> p < m.value.1 <= |text| && |m.value.0| >= 2
    ensures m.Some? ==> pat.stop !in m.value.0 && '\n' !in m.value.0
  {
    if !Text.StartsWith(text[p..], pat.open) || pat.close == "" then None
    else
      var q0 := p + |pat.open|;
      var q := if pat.padded then q0 + SpaceLength(text[q0..]) else q0;
      var n := BodyLength(text[q..], pat.stop);
      var e := if pat.padded then q + n + SpaceLength(text[q + n..]) else q + n;
      if n >= 2 && Text.StartsWith(text[e..], pat.close) then
        assert forall i :: 0 <= i < n ==> text[q..q + n][i] == text[q..][i];
        Some((text[q..q + n], e + |pat.close|))
      else None
  }

  /** The captured groups of `re.finditer(pat, text)` from position `p`:
      the search resumes after each match. */
  function Captures(text: string, pat: Pattern, p: nat): (caps: seq<string>)
    requires p <= |text|
    ensures forall c :: c in caps ==> |c| >= 2 && pat.stop !in c && '\n' !in c
    decreases |text| - p
  {
    if p == |text| then []
    else
      match MatchAt(text, p, pat)
      case Some(m) => [m.0] + Captures(text, pat, m.1)
      case None => Captures(text, pat, p + 1)
  }

  /** `" ".join(toks)` when there are one to three lemmas and the phrase
      is valid. */
  function JoinedPhrase(toks: seq<string>): Option<string> {
    if 1 <= |toks| <= 3 && ValidPhrase(Text.Join(" ", toks)) then Some(Text.Join(" ", toks)) else None
  }

  /** The phrase `_extract_quoted_names` keeps for one captured group: the
      stripped group, of two characters or more, normalised to one to
      three lemmas joined by spaces, if valid. */
  function PhraseOf(raw: string, nlp: string -> Doc): Option<string> {
    var r := Text.Strip(raw);
    if |r| < 2 then None else JoinedPhrase(Normalized(nlp(r).tokens))
  }

  /** A kept phrase: one to three clean lemmas joined by single spaces,
      with at least three characters besides the spaces. */
  ghost predicate IsPhrase(phrase: string) {
    && ValidPhrase(phrase)
    && exists toks: seq<string> ::
         && 1 <= |toks| <= 3
         && phrase == Text.Join(" ", toks)
         && forall w :: w in toks ==> Clean(w)
  }

  lemma JoinedPhraseSpec(toks: seq<string>)
    requires forall w :: w in toks ==> Clean(w)
    ensures JoinedPhrase(toks).Some? ==> IsPhrase(JoinedPhrase(toks).value)
  {
  }

  lemma {:induction false} PhraseOfSpec(raw: string, nlp: string -> Doc)
    ensures PhraseOf(raw, nlp).Some? ==> IsPhrase(PhraseOf(raw, nlp).value)
  {
    var r := Text.Strip(raw);
    if |r| >= 2 {
      NormalizedSpec(nlp(r).tokens);
      JoinedPhraseSpec(Normalized(nlp(r).tokens));
    }
  }

  /** The values `f` keeps from `xs`, in order. */
  function FilterMap<A, B>(xs: seq<A>, f: A -> Option<B>): seq<B> {
    if xs == [] then []
    else FilterMap(xs[..|xs| - 1], f) + (match f(xs[|xs| - 1]) case Some(y) => [y] case None => [])
  }

  lemma FilterMapSnoc<A, B>(xs: seq<A>, x: A, f: A -> Option<B>)
    ensures FilterMap(xs + [x], f) == FilterMap(xs, f) + (if f(x).Some? then [f(x).value] else [])
  {
    assert (xs + [x])[..|xs|] == xs;
  }

  function Keep(nlp: string -> Doc): string -> Option<string> {
    raw => PhraseOf(raw, nlp)
  }

  /** The phrases kept from some captured groups, in order. */
  function Phrases(caps: seq<string>, nlp: string -> Doc): seq<string> {
    FilterMap(caps, Keep(nlp))
  }

  lemma {:induction false} FilterMapPhrases<A>(xs: seq<A>, f: A -> Option<string>)
    requires forall x :: f(x).Some? ==> IsPhrase(f(x).value)
    ensures forall ph :: ph in FilterMap(xs, f) ==> IsPhrase(ph)
  {
    if xs != [] {
      FilterMapPhrases(xs[..|xs| - 1], f);
    }
  }

  lemma {:induction false} PhrasesSpec(caps: seq<string>, nlp: string -> Doc)
    ensures forall ph :: ph in Phrases(caps, nlp) ==> IsPhrase(ph)
  {
    forall x ensures Keep(nlp)(x).Some? ==> IsPhrase(Keep(nlp)(x).value) {
      PhraseOfSpec(x, nlp);
    }
    FilterMapPhrases(caps, Keep(nlp));
  }

  /** The phrases kept from the matches of one pattern. */
  function PatternPhrases(text: string, nlp: string -> Doc): Pattern -> seq<string> {
    pat => Phrases(Captures(text, pat, 0), nlp)
  }

  /** The concatenation of `f(x)` for the `x` of `xs`, in order. */
  function ConcatMap<A>(xs: seq<A>, f: A -> seq<string>): seq<string> {
    if xs == [] then [] else ConcatMap(xs[..|xs| - 1], f) + f(xs[|xs| - 1])
  }

  /** What `_extract_quoted_names` (with `QuotePatterns`) and
      `_extract_quoted_or_markdown_names` (with `MarkdownPatterns`) return:
      the phrases of each pattern's matches, pattern by pattern. */
  function QuotedNames(text: string, nlp: string -> Doc, patterns: seq<Pattern>): seq<string> {
    ConcatMap(patterns, PatternPhrases(text, nlp))
  }

  lemma {:induction false} ConcatMapPhrases<A>(xs: seq<A>, f: A -> seq<string>)
    requires forall x, ph :: x in xs && ph in f(x) ==> IsPhrase(ph)
    ensures forall ph :: ph in ConcatMap(xs, f) ==> IsPhrase(ph)
  {
    if xs != [] {
      ConcatMapPhrases(xs[..|xs| - 1], f);
    }
  }

  /** Every quoted or emphasised name kept is one to three clean lemmas and
      a valid phrase. */
  lemma {:induction false} QuotedNamesSpec(text: string, nlp: string -> Doc, patterns: seq<Pattern>)
    ensures forall ph :: ph in QuotedNames(text, nlp, patterns) ==> IsPhrase(ph)
  {
    forall pat | pat in patterns {
      PhrasesSpec(Captures(text, pat, 0), nlp);
    }
    ConcatMapPhrases(patterns, PatternPhrases(text, nlp));
  }

  /** Patterns are tried in order: the names found by a list of patterns
      followed by more are those of the first list, then those of the rest. */
  lemma {:induction false} ConcatMapAppend<A>(a: seq<A>, b: seq<A>, f: A -> seq<string>)
    ensures ConcatMap(a + b, f) == ConcatMap(a, f) + ConcatMap(b, f)
    decreases |b|
  {
    if b == [] {
      assert a + b == a;
    } else {
      var init := b[..|b| - 1];
      assert (a + b)[..|a + b| - 1] == a + init;
      ConcatMapAppend(a, init, f);
    }
  }

  /** The Markdown variant finds the quoted names first, then the emphasised
      ones. */
  lemma MarkdownNamesExtendQuoted(text: string, nlp: string -> Doc)
    ensures QuotedNames(text, nlp, MarkdownPatterns)
            == QuotedNames(text, nlp, QuotePatterns) + QuotedNames(text, nlp, EmphasisPatterns)
  {
    ConcatMapAppend(QuotePatterns, EmphasisPatterns, PatternPhrases(text, nlp));
  }

  /** The inner loop of `_extract_quoted_names`: appends the phrase kept
      from each captured group. */
  method AppendKept(phrases: seq<string>, caps: seq<string>, keep: string -> Option<string>) returns (out: seq<string>)
    ensures out == phrases + FilterMap(caps, keep)
  {
    out := phrases;
    for j := 0 to |caps|
      invariant out == phrases + FilterMap(caps[..j], keep)
    {
      assert caps[..j + 1] == caps[..j] + [caps[j]];
      FilterMapSnoc(caps[..j], caps[j], keep);
      var ph := keep(caps[j]);
      if ph.Some? {
        out := out + [ph.value];
      }
    }
    assert caps[..|caps|] == caps;
  }

  /** `_extract_quoted_names(text, nlp)` and its Markdown variant: the loop
      over the patterns and their matches. */
  method ExtractQuotedNames(text: string, nlp: string -> Doc, patterns: seq<Pattern>) returns (phrases: seq<string>)
    ensures phrases == QuotedNames(text, nlp, patterns)
  {
    ghost var f := PatternPhrases(text, nlp);
    phrases := [];
    for k := 0 to |patterns|
      invariant phrases == ConcatMap(patterns[..k], f)
    {
      assert patterns[..k + 1][..k] == patterns[..k];
      var caps := Captures(text, patterns[k], 0);
      phrases := AppendKept(phrases, caps, Keep(nlp));
      assert f(patterns[k]) == FilterMap(caps, Keep(nlp));
    }
    assert patterns[..|patterns|] == patterns;
  }

  // ---------------------------------------------------------------- candidates

  /** One increment of the candidate `Counter`: a phrase and its weight. */
  type Vote = (string, real)

  /** The phrases of a list of pairs, in order. */
  function KeysOf<V>(c: seq<(string, V)>): (ks: seq<string>)
    ensures |ks| == |c| && forall i :: 0 <= i < |c| ==> ks[i] == c[i].0
  {
    seq(|c|, i requires 0 <= i < |c| => c[i].0)
  }

  /** `counter[p]` of a `Counter` kept as pairs in insertion order: the
      weight of the first pair for `p`, 0 when there is none. */
  function WeightOf(c: seq<Vote>, p: string): real {
    if c == [] then 0.0 else if c[0].0 == p then c[0].1 else WeightOf(c[1..], p)
  }

  /** `counter[phrase] += w`: a phrase already counted keeps its place and
      its weight grows; a new phrase goes last with weight `w`. */
  function Bump(c: seq<Vote>, phrase: string, w: real): (r: seq<Vote>)
    ensures phrase in KeysOf(c) ==> |r| == |c|
    ensures phrase !in KeysOf(c) ==> |r| == |c| + 1 && r[|c|] == (phrase, w)
    ensures forall i :: 0 <= i < |c| ==> r[i].0 == c[i].0
  {
    if c == [] then [(phrase, w)]
    else if c[0].0 == phrase then [(phrase, c[0].1 + w)] + c[1..]
    else
      assert phrase in KeysOf(c) <==> phrase in KeysOf(c[1..]);
      [c[0]] + Bump(c[1..], phrase, w)
  }

  lemma {:induction false} BumpWeight(c: seq<Vote>, phrase: string, w: real, p: string)
    ensures WeightOf(Bump(c, phrase, w), p) == WeightOf(c, p) + (if p == phrase then w else 0.0)
  {
    if c != [] && c[0].0 != phrase {
      BumpWeight(c[1..], phrase, w, p);
      assert Bump(c, phrase, w)[1..] == Bump(c[1..], phrase, w);
    }
  }

  /** The candidate `Counter` after adding the votes in order. */
  function Tally(votes: seq<Vote>): seq<Vote> {
    if votes == [] then []
    else
      var last := votes[|votes| - 1];
      Bump(Tally(votes[..|votes| - 1]), last.0, last.1)
  }

  /** The total weight of the votes for `p`. */
  function VotesFor(votes: seq<Vote>, p: string): real {
    if votes == [] then 0.0
    else VotesFor(votes[..|votes| - 1], p) + (if votes[|votes| - 1].0 == p then votes[|votes| - 1].1 else 0.0)
  }

  lemma KeysOfSnoc<V>(c: seq<(string, V)>, x: (string, V))
    ensures KeysOf(c + [x]) == KeysOf(c) + [x.0]
  {
  }

  /** The counter holds each voted phrase once, in order of first vote. */
  lemma TallyKeys(votes: seq<Vote>)
    ensures Sorting.NoDups(KeysOf(Tally(votes)))
    ensures forall p :: p in KeysOf(Tally(votes)) <==> p in KeysOf(votes)
  {
    TallyKeysUnique(votes);
    forall p
      ensures p in KeysOf(Tally(votes)) <==> p in KeysOf(votes)
    {
      TallyHolds(votes, p);
    }
  }

  lemma {:induction false} TallyKeysUnique(votes: seq<Vote>)
    ensures Sorting.NoDups(KeysOf(Tally(votes)))
  {
    if votes != [] {
      var init := votes[..|votes| - 1];
      var last := votes[|votes| - 1];
      TallyKeysUnique(init);
      var c := Tally(init);
      BumpKeys(c, last.0, last.1);
      if last.0 !in KeysOf(c) {
        NoDupsSnoc(KeysOf(c), last.0);
      }
    }
  }

  /** A phrase is a key of the counter exactly when it has a vote. */
  lemma {:induction false} TallyHolds(votes: seq<Vote>, p: string)
    ensures p in KeysOf(Tally(votes)) <==> p in KeysOf(votes)
  {
    if votes != [] {
      var init := votes[..|votes| - 1];
      var last := votes[|votes| - 1];
      TallyHolds(init, p);
      TallyHolds(init, last.0);
      assert votes == init + [last];
      KeysOfSnoc(init, last);
      BumpKeys(Tally(init), last.0, last.1);
      HoldsAfterSnoc(KeysOf(Tally(votes)), KeysOf(Tally(init)), KeysOf(votes), KeysOf(init), last.0, p);
    }
  }

  /** Membership after one step of both sides: the counter's keys gain `x`
      when it is new, the votes' keys gain `x` always. */
  lemma HoldsAfterSnoc(after: seq<string>, before: seq<string>, votesAfter: seq<string>, votesBefore: seq<string>, x: string, p: string)
    requires after == if x in before then before else before + [x]
    requires votesAfter == votesBefore + [x]
    requires (p in before <==> p in votesBefore) && (x in before <==> x in votesBefore)
    ensures p in after <==> p in votesAfter
  {
  }

  lemma NoDupsSnoc(xs: seq<string>, x: string)
    requires Sorting.NoDups(xs) && x !in xs
    ensures Sorting.NoDups(xs + [x])
  {
    var ys := xs + [x];
    forall i, j | 0 <= i < j < |ys|
      ensures ys[i] != ys[j]
    {
      assert ys[i] == xs[i];
      if j < |xs| {
        assert ys[j] == xs[j];
      }
    }
  }

  /** Bumping adds the phrase at the end when it is new and keeps the
      keys otherwise. */
  lemma BumpKeys(c: seq<Vote>, phrase: string, w: real)
    ensures KeysOf(Bump(c, phrase, w)) == if phrase in KeysOf(c) then KeysOf(c) else KeysOf(c) + [phrase]
  {
    var r := Bump(c, phrase, w);
    if phrase in KeysOf(c) {
      assert KeysOf(r) == KeysOf(c);
    } else {
      assert KeysOf(r) == KeysOf(c) + [phrase];
    }
  }

  /** Each phrase's weight in the counter is the sum of its votes. */
  lemma {:induction false} TallyWeight(votes: seq<Vote>, p: string)
    ensures WeightOf(Tally(votes), p) == VotesFor(votes, p)
  {
    if votes != [] {
      var last := votes[|votes| - 1];
      TallyWeight(votes[..|votes| - 1], p);
      BumpWeight(Tally(votes[..|votes| - 1]), last.0, last.1, p);
    }
  }

  /** `3.0` for product- or organisation-like labels, else `2.0`; the label
      is `(ent.label_ or "").upper()`. */
  function EntityWeight(tag: string): (w: real)
    ensures w == 2.0 || w == 3.0
  {
    if Text.Upper(tag) in {"ORG", "PRODUCT", "WORK_OF_ART", "MISC"} then 3.0 else 2.0
  }

  /** The vote of one named entity, if its lemmas make a phrase. */
  function EntityVote(e: Entity): Option<Vote> {
    match JoinedPhrase(Normalized(e.tokens))
    case Some(phrase) => Some((phrase, EntityWeight(e.tag)))
    case None => None
  }

  /** The tokens of `ts` that `keep` accepts, in order. */
  function Where(ts: seq<Token>, keep: Token -> bool): (r: seq<Token>)
    ensures |r| <= |ts| && forall t :: t in r ==> t in ts && keep(t)
  {
    if ts == [] then []
    else Where(ts[..|ts| - 1], keep) + (if keep(ts[|ts| - 1]) then [ts[|ts| - 1]] else [])
  }

  /** The token filter of the noun-chunk loop. */
  predicate ChunkToken(t: Token) {
    ContentPos(t.pos) && !(t.isStop || t.isPunct || t.likeNum)
  }

  /** The token filter of `content_tokens`. */
  predicate ContentToken(t: Token) {
    ContentPos(t.pos) && !(t.isStop || t.isPunct || t.isSpace || t.likeNum)
  }

  /** The phrase of one noun chunk: its first three lemmas. */
  function ChunkPhrase(chunk: seq<Token>): Option<string> {
    var norm := Normalized(Where(chunk, ChunkToken));
    if norm == [] then None else JoinedPhrase(norm[..if |norm| < 3 then |norm| else 3])
  }

  /** The phrase of one n-gram window. */
  function NgramPhrase(win: seq<Token>): Option<string> {
    var norm := Normalized(win);
    if norm == [] then None
    else
      var phrase := Text.Join(" ", norm);
      if ValidPhrase(phrase) then Some(phrase) else None
  }

  /** The windows of sizes 1, 2 and 3, in that order. */
  function Ngrams(content: seq<Token>): (wins: seq<seq<Token>>)
    ensures forall w :: w in wins ==> 1 <= |w| <= 3
  {
    SlidingNgrams(content, 1) + SlidingNgrams(content, 2) + SlidingNgrams(content, 3)
  }

  /** Each phrase with the same weight. */
  function Weigh(phrases: seq<string>, w: real): (r: seq<Vote>)
    ensures |r| == |phrases| && forall i :: 0 <= i < |r| ==> r[i] == (phrases[i], w)
  {
    seq(|phrases|, i requires 0 <= i < |phrases| => (phrases[i], w))
  }

  /** Every increment of `candidates` in `extract_keywords_spacy` and
      `extract_all_keywords_spacy`, in order: entities (2 or 3), noun
      chunks (1.5), quoted or emphasised names (2.5), then n-grams (1). */
  function Votes(text: string, nlp: string -> Doc, patterns: seq<Pattern>): seq<Vote> {
    var doc := nlp(text);
    FilterMap(doc.ents, EntityVote)
    + Weigh(FilterMap(doc.nounChunks, ChunkPhrase), 1.5)
    + Weigh(QuotedNames(text, nlp, patterns), 2.5)
    + Weigh(FilterMap(Ngrams(Where(doc.tokens, ContentToken)), NgramPhrase), 1.0)
  }

  /** `scored` before its sort: each counted phrase with its weight plus
      0.25 per word after the first. */
  function Scores(c: seq<Vote>): (r: seq<Vote>)
    ensures |r| == |c| && forall i :: 0 <= i < |r| ==> r[i].0 == c[i].0
  {
    seq(|c|, i requires 0 <= i < |c| => (c[i].0, c[i].1 + 0.25 * ((|Text.Words(c[i].0)| - 1) as real)))
  }

  /** The scored candidates of a text, before the sort by score and length:
      none for a blank text. */
  function ScoredCandidates(text: string, nlp: string -> Doc, patterns: seq<Pattern>): seq<Vote> {
    if Text.IsBlank(text) then [] else Scores(Tally(Votes(text, nlp, patterns)))
  }

  /** A value kept by `f` comes from some element. */
  lemma {:induction false} FilterMapIn<A, B>(xs: seq<A>, f: A -> Option<B>, y: B)
    requires y in FilterMap(xs, f)
    ensures exists i :: 0 <= i < |xs| && f(xs[i]) == Some(y)
  {
    var init := xs[..|xs| - 1];
    if y in FilterMap(init, f) {
      FilterMapIn(init, f, y);
      var i :| 0 <= i < |init| && f(init[i]) == Some(y);
      assert xs[i] == init[i];
    }
  }

  /** Every entity vote is for a phrase. */
  lemma {:induction false} EntityVotesSpec(ents: seq<Entity>)
    ensures forall v :: v in FilterMap(ents, EntityVote) ==> IsPhrase(v.0)
  {
    forall v | v in FilterMap(ents, EntityVote) ensures IsPhrase(v.0) {
      FilterMapIn(ents, EntityVote, v);
      var i :| 0 <= i < |ents| && EntityVote(ents[i]) == Some(v);
      NormalizedSpec(ents[i].tokens);
      JoinedPhraseSpec(Normalized(ents[i].tokens));
    }
  }

  /** Every noun-chunk phrase is a phrase. */
  lemma {:induction false} ChunkPhrasesSpec(chunks: seq<seq<Token>>)
    ensures forall ph :: ph in FilterMap(chunks, ChunkPhrase) ==> IsPhrase(ph)
  {
    forall ph | ph in FilterMap(chunks, ChunkPhrase) ensures IsPhrase(ph) {
      FilterMapIn(chunks, ChunkPhrase, ph);
      var i :| 0 <= i < |chunks| && ChunkPhrase(chunks[i]) == Some(ph);
      var norm := Normalized(Where(chunks[i], ChunkToken));
      NormalizedSpec(Where(chunks[i], ChunkToken));
      JoinedPhraseSpec(norm[..if |norm| < 3 then |norm| else 3]);
    }
  }

  /** Every n-gram phrase is a phrase: a window holds at most three tokens,
      so at most three lemmas. */
  lemma {:induction false} NgramPhrasesSpec(wins: seq<seq<Token>>)
    requires forall w :: w in wins ==> |w| <= 3
    ensures forall ph :: ph in FilterMap(wins, NgramPhrase) ==> IsPhrase(ph)
  {
    forall ph | ph in FilterMap(wins, NgramPhrase) ensures IsPhrase(ph) {
      FilterMapIn(wins, NgramPhrase, ph);
      var i :| 0 <= i < |wins| && NgramPhrase(wins[i]) == Some(ph);
      NormalizedSpec(wins[i]);
      assert ph == Text.Join(" ", Normalized(wins[i]));
    }
  }

  /** Votes of one weight for phrases are votes for phrases. */
  lemma WeighPhrases(phrases: seq<string>, w: real)
    requires forall ph :: ph in phrases ==> IsPhrase(ph)
    ensures forall v :: v in Weigh(phrases, w) ==> IsPhrase(v.0)
  {
    forall v | v in Weigh(phrases, w) ensures IsPhrase(v.0) {
      var i :| 0 <= i < |Weigh(phrases, w)| && Weigh(phrases, w)[i] == v;
      assert phrases[i] in phrases;
    }
  }

  /** Every vote is for a phrase: one to three clean lemmas, valid. */
  lemma {:induction false} VotesArePhrases(text: string, nlp: string -> Doc, patterns: seq<Pattern>)
    ensures forall v :: v in Votes(text, nlp, patterns) ==> IsPhrase(v.0)
  {
    var doc := nlp(text);
    var ents := FilterMap(doc.ents, EntityVote);
    var chunks := FilterMap(doc.nounChunks, ChunkPhrase);
    var quoted := QuotedNames(text, nlp, patterns);
    var ngrams := FilterMap(Ngrams(Where(doc.tokens, ContentToken)), NgramPhrase);
    EntityVotesSpec(doc.ents);
    ChunkPhrasesSpec(doc.nounChunks);
    WeighPhrases(chunks, 1.5);
    QuotedNamesSpec(text, nlp, patterns);
    WeighPhrases(quoted, 2.5);
    NgramPhrasesSpec(Ngrams(Where(doc.tokens, ContentToken)));
    WeighPhrases(ngrams, 1.0);
    var all := ents + Weigh(chunks, 1.5) + Weigh(quoted, 2.5) + Weigh(ngrams, 1.0);
    assert Votes(text, nlp, patterns) == all;
    forall v | v in all ensures IsPhrase(v.0) {
      assert v in ents || v in Weigh(chunks, 1.5) || v in Weigh(quoted, 2.5) || v in Weigh(ngrams, 1.0);
    }
  }

  /** In a counter without repeated phrases, a pair's weight is its
      phrase's. */
  lemma {:induction false} WeightOfAt(c: seq<Vote>, i: nat)
    requires Sorting.NoDups(KeysOf(c)) && i < |c|
    ensures WeightOf(c, c[i].0) == c[i].1
  {
    if i > 0 {
      assert c[i].0 == KeysOf(c)[i] != KeysOf(c)[0] == c[0].0;
      assert KeysOf(c[1..]) == KeysOf(c)[1..];
      WeightOfAt(c[1..], i - 1);
    }
  }

  /** The scored candidates: none for a blank text; otherwise every voted
      phrase exactly once, each a phrase, scored by the sum of its votes
      plus the length boost. */
  lemma {:induction false} ScoredCandidatesSpec(text: string, nlp: string -> Doc, patterns: seq<Pattern>)
    ensures var r := ScoredCandidates(text, nlp, patterns);
      var votes := Votes(text, nlp, patterns);
      && (Text.IsBlank(text) ==> r == [])
      && Sorting.NoDups(KeysOf(r))
      && (forall p :: p in KeysOf(r) <==> !Text.IsBlank(text) && p in KeysOf(votes))
      && (forall i :: 0 <= i < |r| ==> IsPhrase(r[i].0))
      && (forall i :: 0 <= i < |r| ==>
            r[i].1 == VotesFor(votes, r[i].0) + 0.25 * ((|Text.Words(r[i].0)| - 1) as real))
  {
    var r := ScoredCandidates(text, nlp, patterns);
    var votes := Votes(text, nlp, patterns);
    if !Text.IsBlank(text) {
      var c := Tally(votes);
      TallyKeys(votes);
      assert KeysOf(r) == KeysOf(c);
      VotesArePhrases(text, nlp, patterns);
      forall i | 0 <= i < |r| ensures IsPhrase(r[i].0) {
        assert r[i].0 in KeysOf(votes);
        var j :| 0 <= j < |votes| && KeysOf(votes)[j] == r[i].0;
        assert votes[j] in votes;
      }
      forall i | 0 <= i < |r|
        ensures r[i].1 == VotesFor(votes, r[i].0) + 0.25 * ((|Text.Words(r[i].0)| - 1) as real)
      {
        WeightOfAt(c, i);
        TallyWeight(votes, c[i].0);
      }
    }
  }

  // ---------------------------------------------------------------- selection

  lemma DistinctSnoc(ts: seq<string>, x: string)
    ensures Keywords.Distinct(ts + [x])
            == if x in ts then Keywords.Distinct(ts) else Keywords.Distinct(ts) + [x]
  {
    assert (ts + [x])[..|ts|] == ts;
  }

  /** The distinct phrases of a prefix are a prefix of the distinct
      phrases. */
  lemma {:induction false} DistinctPrefix(ts: seq<string>, i: nat)
    requires i <= |ts|
    ensures var d := Keywords.Distinct(ts);
      var g := Keywords.Distinct(ts[..i]);
      |g| <= |d| && d[..|g|] == g
    decreases |ts|
  {
    if i < |ts| {
      var init := ts[..|ts| - 1];
      assert ts == init + [ts[|ts| - 1]];
      assert init[..i] == ts[..i];
      DistinctPrefix(init, i);
      DistinctSnoc(init, ts[|ts| - 1]);
    } else {
      assert ts[..i] == ts;
    }
  }

  /** A list without repeats is its own distinct list. */
  lemma {:induction false} DistinctNoDups(ts: seq<string>)
    requires Sorting.NoDups(ts)
    ensures Keywords.Distinct(ts) == ts
  {
    if ts != [] {
      var init := ts[..|ts| - 1];
      assert ts == init + [ts[|ts| - 1]];
      DistinctNoDups(init);
      DistinctSnoc(init, ts[|ts| - 1]);
    }
  }

  function Max(a: int, b: int): int { if a < b then b else a }
  function Min(a: int, b: int): int { if a < b then a else b }

  /** How many distinct phrases the selection keeps out of `n`: the first
      pass stops at `max(1, maxKw)`; when that is below `minKw`, the second
      pass goes on up to `minKw`. */
  function SelectionSize(n: nat, minKw: int, maxKw: int): (size: nat)
    ensures size <= n
  {
    var a := Min(n, Max(1, maxKw));
    if a < minKw then Min(n, minKw) else a
  }

  lemma SeenSnoc(s: seq<string>, y: string)
    ensures (set x | x in s + [y]) == (set x | x in s) + {y}
  {
  }

  /** The two deduplicating passes at the end of `extract_keywords_spacy`,
      over the phrases in rank order: the first distinct phrases, as many
      as `SelectionSize` says. */
  method SelectKeywords(ranked: seq<string>, minKw: int, maxKw: int) returns (selected: seq<string>)
    ensures var d := Keywords.Distinct(ranked);
      selected == d[..SelectionSize(|d|, minKw, maxKw)]
  {
    var seen;
    selected, seen := FirstPass(ranked, maxKw);
    if |selected| < minKw {
      selected, seen := SecondPass(ranked, selected, seen, minKw, |selected|);
    }
  }

  /** The first pass of the selection: distinct phrases until `maxKw` of
      them (at least one) are kept; also returns the set of those seen. */
  method FirstPass(ranked: seq<string>, maxKw: int) returns (selected: seq<string>, seen: set<string>)
    ensures var d := Keywords.Distinct(ranked);
      selected == d[..Min(|d|, Max(1, maxKw))]
    ensures seen == set x | x in selected
  {
    selected := [];
    seen := {};
    for i := 0 to |ranked|
      invariant selected == Keywords.Distinct(ranked[..i])
      invariant seen == set x | x in selected
      invariant |selected| < Max(1, maxKw)
    {
      FirstPassStep(ranked, i);
      if ranked[i] in seen {
        continue;
      }
      SeenSnoc(selected, ranked[i]);
      seen := seen + {ranked[i]};
      selected := selected + [ranked[i]];
      if |selected| >= maxKw {
        FirstPassFull(ranked, i + 1, maxKw);
        return;
      }
    }
    assert ranked[..|ranked|] == ranked;
  }

  lemma FirstPassStep(ranked: seq<string>, i: nat)
    requires i < |ranked|
    ensures Keywords.Distinct(ranked[..i + 1])
            == if ranked[i] in Keywords.Distinct(ranked[..i]) then Keywords.Distinct(ranked[..i])
               else Keywords.Distinct(ranked[..i]) + [ranked[i]]
  {
    assert ranked[..i + 1] == ranked[..i] + [ranked[i]];
    DistinctSnoc(ranked[..i], ranked[i]);
  }

  /** The first pass stops with the first `max(1, maxKw)` distinct
      phrases. */
  lemma FirstPassFull(ranked: seq<string>, i: nat, maxKw: int)
    requires i <= |ranked| && |Keywords.Distinct(ranked[..i])| == Max(1, maxKw)
    ensures var d := Keywords.Distinct(ranked);
      Keywords.Distinct(ranked[..i]) == d[..Min(|d|, Max(1, maxKw))]
  {
    DistinctPrefix(ranked, i);
  }

  /** One step of the second pass: a phrase already kept leaves the kept
      prefix as it is; a new one is the next distinct phrase. */
  lemma {:induction false} SecondPassStep(ranked: seq<string>, i: nat, a: nat, selected: seq<string>)
    requires i < |ranked|
    requires |Keywords.Distinct(ranked[..i])| <= |Keywords.Distinct(ranked)| && a <= |Keywords.Distinct(ranked)|
    requires selected == Keywords.Distinct(ranked)[..Max(a, |Keywords.Distinct(ranked[..i])|)]
    ensures var d := Keywords.Distinct(ranked);
      var g := |Keywords.Distinct(ranked[..i])|;
      var g' := |Keywords.Distinct(ranked[..i + 1])|;
      && g' <= |d|
      && (ranked[i] in selected ==> Max(a, g') == Max(a, g))
      && (ranked[i] !in selected ==> a <= g && g' == g + 1 && d[..g'] == selected + [ranked[i]])
  {
    var x := ranked[i];
    assert ranked[..i + 1] == ranked[..i] + [x];
    DistinctSnoc(ranked[..i], x);
    DistinctPrefix(ranked, i + 1);
    if x !in selected {
      SecondPassNew(ranked, i, a, selected);
    }
  }

  /** What a selection `d[..max(a, g)]` that misses `x` says about the
      first `g` elements of `d`: `x` is not among them. */
  lemma MissedNotInPrefix(d: seq<string>, g: nat, a: nat, selected: seq<string>, x: string)
    requires g <= |d| && a <= |d| && selected == d[..Max(a, g)] && x !in selected
    ensures x !in d[..g]
  {
    forall k | 0 <= k < g
      ensures d[..g][k] != x
    {
      assert d[..g][k] == selected[k];
    }
  }

  /** When `x` follows the first `g` elements of `d` and the selection
      `d[..max(a, g)]` misses it, the selection is those `g` elements. */
  lemma MissedIsNext(d: seq<string>, g: nat, a: nat, selected: seq<string>, x: string)
    requires g < |d| && d[g] == x && a <= |d| && selected == d[..Max(a, g)] && x !in selected
    ensures a <= g && d[..g + 1] == selected + [x]
  {
    PrefixHolds(d, Max(a, g), g);
  }

  /** `d[k]` is in `d[..n]` whenever `k < n`. */
  lemma PrefixHolds(d: seq<string>, n: int, k: int)
    requires 0 <= k < |d| && 0 <= n <= |d|
    ensures k < n ==> d[k] in d[..n]
  {
    if k < n {
      assert d[..n][k] == d[k];
    }
  }

  /** A phrase the selection does not hold yet is the next distinct one. */
  lemma SecondPassNew(ranked: seq<string>, i: nat, a: nat, selected: seq<string>)
    requires i < |ranked| && ranked[i] !in selected
    requires |Keywords.Distinct(ranked[..i])| <= |Keywords.Distinct(ranked)| && a <= |Keywords.Distinct(ranked)|
    requires selected == Keywords.Distinct(ranked)[..Max(a, |Keywords.Distinct(ranked[..i])|)]
    ensures var d := Keywords.Distinct(ranked);
      var g := |Keywords.Distinct(ranked[..i])|;
      a <= g && Keywords.Distinct(ranked[..i + 1]) == Keywords.Distinct(ranked[..i]) + [ranked[i]]
      && g + 1 <= |d| && d[..g + 1] == selected + [ranked[i]]
  {
    var d := Keywords.Distinct(ranked);
    var gs := Keywords.Distinct(ranked[..i]);
    var g := |gs|;
    var x := ranked[i];
    DistinctPrefix(ranked, i);
    MissedNotInPrefix(d, g, a, selected, x);
    assert ranked[..i + 1] == ranked[..i] + [x];
    DistinctSnoc(ranked[..i], x);
    DistinctPrefix(ranked, i + 1);
    assert d[g] == (gs + [x])[g];
    MissedIsNext(d, g, a, selected, x);
  }

  /** The second pass of the selection, from the first pass's `a` phrases
      up to `minKw`. */
  method SecondPass(ranked: seq<string>, first: seq<string>, firstSeen: set<string>, minKw: int, ghost a: nat)
    returns (selected: seq<string>, seen: set<string>)
    requires a <= |Keywords.Distinct(ranked)|
    requires first == Keywords.Distinct(ranked)[..a] && a < minKw
    requires firstSeen == set x | x in first
    ensures var d := Keywords.Distinct(ranked);
      selected == d[..Min(|d|, minKw)]
  {
    ghost var d := Keywords.Distinct(ranked);
    selected, seen := first, firstSeen;
    for i := 0 to |ranked|
      invariant |Keywords.Distinct(ranked[..i])| <= |d|
      invariant selected == d[..Max(a, |Keywords.Distinct(ranked[..i])|)]
      invariant seen == set x | x in selected
      invariant |selected| < minKw
    {
      SecondPassStep(ranked, i, a, selected);
      if ranked[i] in seen {
        continue;
      }
      SeenSnoc(selected, ranked[i]);
      seen := seen + {ranked[i]};
      selected := selected + [ranked[i]];
      if |selected| >= minKw {
        break;
      }
    }
    if |selected| < minKw {
      assert ranked[..|ranked|] == ranked;
    }
  }

  /** With the bounds `main` passes (`min_kw = max(0, min)`, `max_kw =
      max(min, max)`) and a ranking without repeats, the second pass adds
      nothing: the keywords are the first `max(1, max(min, max))` phrases
      of the ranking. */
  lemma {:induction false} SelectionForMainBounds(ranked: seq<string>, mn: int, mx: int)
    requires Sorting.NoDups(ranked)
    ensures var d := Keywords.Distinct(ranked);
      d[..SelectionSize(|d|, Max(0, mn), Max(mn, mx))] == ranked[..Min(|ranked|, Max(1, Max(mn, mx)))]
  {
    DistinctNoDups(ranked);
  }

  // ---------------------------------------------------------------- model choice

  const LargeModel: string := "fr_core_news_lg"
  const MediumModel: string := "fr_core_news_md"

  /** `(choice or "").strip().lower()` */
  function ModelChoice(choice: Option<string>): string {
    Text.Lower(Text.Strip(if choice.Some? then choice.value else ""))
  }

  /** `_resolve_model_name` of `collect_keywords.py`: medium unless large
      is asked for. */
  function ResolveModelName(choice: Option<string>): string {
    if ModelChoice(choice) in {"lg", "fr_core_news_lg"} then LargeModel else MediumModel
  }

  /** `_resolve_model_name` of `collect_keywords_from_md.py`: large unless
      medium is asked for; an empty or unknown choice means large. */
  function ResolveModelNameMd(choice: Option<string>): string {
    var c := ModelChoice(choice);
    if c in {"lg", "fr_core_news_lg", ""} then LargeModel
    else if c in {"md", "fr_core_news_md"} then MediumModel
    else LargeModel
  }

  /** The two scripts load the same model for each choice the command line
      accepts, and opposite defaults for anything else. */
  lemma ResolveModelNames(choice: Option<string>)
    ensures var c := ModelChoice(choice);
      && (c in {"md", "fr_core_news_md"} ==> ResolveModelName(choice) == ResolveModelNameMd(choice) == MediumModel)
      && (c in {"lg", "fr_core_news_lg"} ==> ResolveModelName(choice) == ResolveModelNameMd(choice) == LargeModel)
      && (c !in {"md", "fr_core_news_md", "lg", "fr_core_news_lg"} ==>
            ResolveModelName(choice) == MediumModel && ResolveModelNameMd(choice) == LargeModel)
  {
    assert MediumModel[13] != LargeModel[13];
    assert "md"[0] != "lg"[0];
  }

  // ---------------------------------------------------------------- the line loops

  /** What a line loop makes of one line: nothing (a blank line), an error
      count (an undecodable line), an exception that ends the script, or a
      value taken from it. */
  datatype LineStep<T> = Skip | Bad | Stop(error: string) | Take(value: T)

  /** A line loop so far: the values taken, the undecodable lines, and the
      exception that ended it, if any. */
  datatype LineRun<T> = LineRun(taken: seq<T>, errors: nat, failure: Option<string>)

  /** The loop `for line in inf` over the lines (without their line
      breaks): after an exception no further line is read. */
  function RunLines<T>(lines: seq<string>, step: string -> LineStep<T>): LineRun<T> {
    if lines == [] then LineRun([], 0, None)
    else
      var r := RunLines(lines[..|lines| - 1], step);
      if r.failure.Some? then r
      else
        match step(lines[|lines| - 1])
        case Skip => r
        case Bad => r.(errors := r.errors + 1)
        case Stop(e) => r.(failure := Some(e))
        case Take(v) => r.(taken := r.taken + [v])
  }

  /** The value a line gives, if it gives one. */
  function Taken<T>(step: string -> LineStep<T>): string -> Option<T> {
    line => if step(line).Take? then Some(step(line).value) else None
  }

  /** A loop that met no exception took one value from each line that
      gives one, in order. */
  lemma {:induction false} RunLinesTaken<T>(lines: seq<string>, step: string -> LineStep<T>)
    ensures var r := RunLines(lines, step);
      r.failure.None? ==> r.taken == FilterMap(lines, Taken(step)) && forall l :: l in lines ==> !step(l).Stop?
  {
    if lines != [] {
      var init := lines[..|lines| - 1];
      RunLinesTaken(init, step);
      if RunLines(init, step).failure.None? {
        assert forall l :: l in lines ==> l in init || l == lines[|lines| - 1];
      }
    }
  }

  /** A loop ended by an exception stopped at the first line that raises
      one: it is what the lines before gave, with that exception. */
  lemma {:induction false} RunLinesFailure<T>(lines: seq<string>, step: string -> LineStep<T>)
    ensures var r := RunLines(lines, step);
      r.failure.Some? ==>
        exists i ::
          && 0 <= i < |lines|
          && step(lines[i]) == Stop(r.failure.value)
          && RunLines(lines[..i], step).failure.None?
          && r == RunLines(lines[..i], step).(failure := r.failure)
  {
    if lines != [] {
      var init := lines[..|lines| - 1];
      RunLinesFailure(init, step);
      var r := RunLines(lines, step);
      if RunLines(init, step).failure.Some? {
        var i :| 0 <= i < |init| && step(init[i]) == Stop(r.failure.value)
          && RunLines(init[..i], step).failure.None? && r == RunLines(init[..i], step).(failure := r.failure);
        assert init[..i] == lines[..i] && init[i] == lines[i];
      }
    }
  }

  /** Once ended, a loop reads no further line. */
  lemma {:induction false} RunLinesStopped<T>(lines: seq<string>, i: nat, step: string -> LineStep<T>)
    requires i <= |lines| && RunLines(lines[..i], step).failure.Some?
    ensures RunLines(lines, step) == RunLines(lines[..i], step)
    decreases |lines|
  {
    if i < |lines| {
      var init := lines[..|lines| - 1];
      assert init[..i] == lines[..i];
      RunLinesStopped(init, i, step);
    } else {
      assert lines[..i] == lines;
    }
  }

  lemma RunLinesStep<T>(lines: seq<string>, i: nat, step: string -> LineStep<T>)
    requires i < |lines| && RunLines(lines[..i], step).failure.None?
    ensures var r := RunLines(lines[..i], step);
      RunLines(lines[..i + 1], step)
      == match step(lines[i])
         case Skip => r
         case Bad => r.(errors := r.errors + 1)
         case Stop(e) => r.(failure := Some(e))
         case Take(v) => r.(taken := r.taken + [v])
  {
    assert lines[..i + 1][..i] == lines[..i];
  }

  /** `obj.get("text", "") or ""`, then the `text.strip()` that follows: a
      missing or falsy value reads as "", and a truthy value that is not a
      string raises. */
  function ChunkText(fields: Fields): Result<string> {
    match Json.Get(fields, "text")
    case None => Ok("")
    case Some(v) =>
      if !Json.Truthy(v) then Ok("")
      else if v.JStr? then Ok(v.s)
      else Err("AttributeError: 'text' has no attribute 'strip'")
  }

  /** The exception of `obj.get` on a decoded value that is not an object. */
  const NotAnObject: string := "AttributeError: object has no attribute 'get'"

  /** The body of the line loop of `main` in `collect_keywords.py`, for a
      keyword extractor `extract`: an object comes out with its keywords
      replaced. */
  function KeywordLine(parse: string -> Option<Json.Json>, extract: string -> seq<string>): string -> LineStep<Fields> {
    line =>
      if Text.IsBlank(line) then Skip
      else
        match parse(line)
        case None => Bad
        case Some(j) =>
          if !j.JObj? then Stop(NotAnObject)
          else
            match ChunkText(j.fields)
            case Err(e) => Stop(e)
            case Ok(text) => Take(Json.Set(j.fields, "keywords", Json.StrArray(extract(text))))
  }

  /** The record written for an object line: only `keywords` changes, to
      the extracted keywords, appended when the record had none. */
  lemma {:induction false} KeywordLineFields(line: string, parse: string -> Option<Json.Json>, extract: string -> seq<string>, other: string)
    requires KeywordLine(parse, extract)(line).Take? && other != "keywords"
    ensures parse(line).Some? && parse(line).value.JObj? && ChunkText(parse(line).value.fields).Ok?
    ensures var fields := parse(line).value.fields;
      var r := KeywordLine(parse, extract)(line).value;
      && Json.Get(r, other) == Json.Get(fields, other)
      && Json.Get(r, "keywords") == Some(Json.StrArray(extract(ChunkText(fields).value)))
      && Json.Keys(r) == Json.Keys(fields) + (if "keywords" in Json.Keys(fields) then [] else ["keywords"])
  {
    var fields := parse(line).value.fields;
    var value := Json.StrArray(extract(ChunkText(fields).value));
    Json.SetGet(fields, "keywords", value, other);
    Json.SetKeys(fields, "keywords", value);
  }

  /** The exit status of `collect_keywords.py` after its loop. */
  function KeywordsExit(processed: nat, errors: nat): (code: int)
    ensures code == 0 <==> processed > 0
    ensures code == 0 || code == 1
  {
    if processed > 0 && errors == 0 then 0 else if processed > 0 then 0 else 1
  }

  /** The line loop and exit status of `main` in `collect_keywords.py`, for
      a keyword extractor `extract`; an exception ends the script with
      status 1. */
  method CollectKeywords(lines: seq<string>, parse: string -> Option<Json.Json>, extract: string -> seq<string>)
    returns (run: LineRun<Fields>, code: int)
    ensures run == RunLines(lines, KeywordLine(parse, extract))
    ensures code == if run.failure.Some? then 1 else KeywordsExit(|run.taken|, run.errors)
  {
    ghost var step := KeywordLine(parse, extract);
    var written: seq<Fields> := [];
    var errors := 0;
    for i := 0 to |lines|
      invariant RunLines(lines[..i], step) == LineRun(written, errors, None)
    {
      RunLinesStep(lines, i, step);
      var line := lines[i];
      if Text.IsBlank(line) {
        continue;
      }
      var parsed := parse(line);
      if parsed.None? {
        errors := errors + 1;
        continue;
      }
      if !parsed.value.JObj? {
        run := LineRun(written, errors, Some(NotAnObject));
        RunLinesStopped(lines, i + 1, step);
        return run, 1;
      }
      var fields := parsed.value.fields;
      var text := ChunkText(fields);
      if text.Err? {
        run := LineRun(written, errors, Some(text.error));
        RunLinesStopped(lines, i + 1, step);
        return run, 1;
      }
      var kws := extract(text.value);
      written := written + [Json.Set(fields, "keywords", Json.StrArray(kws))];
    }
    assert lines[..|lines|] == lines;
    run := LineRun(written, errors, None);
    code := if |written| > 0 && errors == 0 then 0 else if |written| > 0 then 0 else 1;
  }

  /** The body of the line loop of `main` in `collect_keywords_from_md.py`:
      an object with a blank text is skipped without being counted. */
  function TextLine(parse: string -> Option<Json.Json>): string -> LineStep<string> {
    line =>
      if Text.IsBlank(line) then Skip
      else
        match parse(line)
        case None => Bad
        case Some(j) =>
          if !j.JObj? then Stop(NotAnObject)
          else
            match ChunkText(j.fields)
            case Err(e) => Stop(e)
            case Ok(text) => if Text.IsBlank(text) then Skip else Take(text)
  }

  /** The phrases of each text's extraction, one text after the other. */
  function PhrasesOfTexts(texts: seq<string>, extractAll: string -> seq<Vote>): seq<string> {
    if texts == [] then []
    else PhrasesOfTexts(texts[..|texts| - 1], extractAll) + KeysOf(extractAll(texts[|texts| - 1]))
  }

  /** The scored phrases of each text's extraction, one text after the
      other. */
  function VotesOfTexts(texts: seq<string>, extractAll: string -> seq<Vote>): seq<Vote> {
    if texts == [] then []
    else VotesOfTexts(texts[..|texts| - 1], extractAll) + extractAll(texts[|texts| - 1])
  }

  /** `global_counter` after `update` with the phrases in order. */
  function CountAll(ps: seq<string>): map<string, nat> {
    if ps == [] then map[]
    else
      var m := CountAll(ps[..|ps| - 1]);
      var p := ps[|ps| - 1];
      m[p := (if p in m then m[p] else 0) + 1]
  }

  /** `best_scores` after the scored phrases in order: a phrase's score is
      replaced only by a higher one. */
  function BestScores(votes: seq<Vote>): map<string, real> {
    if votes == [] then map[]
    else
      var m := BestScores(votes[..|votes| - 1]);
      var v := votes[|votes| - 1];
      if v.0 !in m || v.1 > m[v.0] then m[v.0 := v.1] else m
  }

  lemma {:induction false} CountSnoc(ps: seq<string>, x: string, p: string)
    ensures Keywords.Count(ps + [x], p) == Keywords.Count(ps, p) + (if x == p then 1 else 0)
  {
    if ps != [] {
      assert (ps + [x])[1..] == ps[1..] + [x];
      CountSnoc(ps[1..], x, p);
    }
  }

  /** The counter holds exactly the phrases seen, each with its number of
      occurrences. */
  lemma {:induction false} CountAllSpec(ps: seq<string>, p: string)
    ensures p in CountAll(ps) <==> p in ps
    ensures p in CountAll(ps) ==> CountAll(ps)[p] == Keywords.Count(ps, p)
  {
    if ps != [] {
      var init := ps[..|ps| - 1];
      CountAllSpec(init, p);
      assert ps == init + [ps[|ps| - 1]];
      CountSnoc(init, ps[|ps| - 1], p);
      if p !in init {
        assert Keywords.Count(init, p) == 0 by {
          CountAbsent(init, p);
        }
      }
    }
  }

  lemma {:induction false} CountAbsent(ps: seq<string>, p: string)
    requires p !in ps
    ensures Keywords.Count(ps, p) == 0
  {
    if ps != [] {
      CountAbsent(ps[1..], p);
    }
  }

  /** A phrase occurs at most once in a list without repeats. */
  lemma {:induction false} CountNoDups(ps: seq<string>, p: string)
    requires Sorting.NoDups(ps)
    ensures Keywords.Count(ps, p) == if p in ps then 1 else 0
  {
    if ps != [] {
      CountNoDups(ps[1..], p);
      if ps[0] == p {
        CountAbsent(ps[1..], p);
      }
    }
  }

  lemma {:induction false} CountAppend(a: seq<string>, b: seq<string>, p: string)
    ensures Keywords.Count(a + b, p) == Keywords.Count(a, p) + Keywords.Count(b, p)
  {
    if a != [] {
      assert (a + b)[1..] == a[1..] + b;
      CountAppend(a[1..], b, p);
    } else {
      assert a + b == b;
    }
  }

  /** How many texts have `p` among their phrases. */
  function TextsWith(texts: seq<string>, extractAll: string -> seq<Vote>, p: string): nat {
    if texts == [] then 0
    else TextsWith(texts[..|texts| - 1], extractAll, p) + (if p in KeysOf(extractAll(texts[|texts| - 1])) then 1 else 0)
  }

  /** When no extraction repeats a phrase, as `extract_all_keywords_spacy`
      never does, a phrase's global frequency is the number of chunks it
      appears in. */
  lemma {:induction false} FrequencyIsChunkCount(texts: seq<string>, extractAll: string -> seq<Vote>, p: string)
    requires forall t :: t in texts ==> Sorting.NoDups(KeysOf(extractAll(t)))
    ensures Keywords.Count(PhrasesOfTexts(texts, extractAll), p) == TextsWith(texts, extractAll, p)
  {
    if texts != [] {
      var init := texts[..|texts| - 1];
      var last := texts[|texts| - 1];
      assert forall t :: t in init ==> t in texts;
      FrequencyIsChunkCount(init, extractAll, p);
      CountAppend(PhrasesOfTexts(init, extractAll), KeysOf(extractAll(last)), p);
      CountNoDups(KeysOf(extractAll(last)), p);
    }
  }

  /** `best_scores` holds exactly the phrases scored, each with its highest
      score. */
  lemma {:induction false} BestScoresSpec(votes: seq<Vote>, p: string)
    ensures p in BestScores(votes) <==> p in KeysOf(votes)
    ensures p in BestScores(votes) ==>
      && (forall i :: 0 <= i < |votes| && votes[i].0 == p ==> votes[i].1 <= BestScores(votes)[p])
      && exists i :: 0 <= i < |votes| && votes[i] == (p, BestScores(votes)[p])
  {
    if votes != [] {
      var init := votes[..|votes| - 1];
      var v := votes[|votes| - 1];
      BestScoresSpec(init, p);
      assert votes == init + [v];
      KeysOfSnoc(init, v);
      var m := BestScores(init);
      if p in BestScores(votes) {
        if p in m && BestScores(votes)[p] == m[p] {
          var i :| 0 <= i < |init| && init[i] == (p, m[p]);
          assert votes[i] == init[i];
        } else {
          assert votes[|votes| - 1] == (p, BestScores(votes)[p]);
        }
      }
    }
  }

  lemma CountAllSnoc(ps: seq<string>, p: string)
    ensures CountAll(ps + [p]) == CountAll(ps)[p := (if p in CountAll(ps) then CountAll(ps)[p] else 0) + 1]
  {
    assert (ps + [p])[..|ps|] == ps;
  }

  lemma BestScoresSnoc(votes: seq<Vote>, v: Vote)
    ensures BestScores(votes + [v])
            == if v.0 !in BestScores(votes) || v.1 > BestScores(votes)[v.0] then BestScores(votes)[v.0 := v.1]
               else BestScores(votes)
  {
    assert (votes + [v])[..|votes|] == votes;
  }

  /** `global_counter.update(kws)` */
  method AddCounts(counts: map<string, nat>, ghost before: seq<string>, kws: seq<string>) returns (r: map<string, nat>)
    requires counts == CountAll(before)
    ensures r == CountAll(before + kws)
  {
    r := counts;
    assert before + kws[..0] == before;
    for j := 0 to |kws|
      invariant r == CountAll(before + kws[..j])
    {
      assert before + kws[..j + 1] == (before + kws[..j]) + [kws[j]];
      CountAllSnoc(before + kws[..j], kws[j]);
      var p := kws[j];
      r := r[p := (if p in r then r[p] else 0) + 1];
    }
    assert kws[..|kws|] == kws;
  }

  /** The specificity loop over one text's scored phrases. */
  method KeepBest(best: map<string, real>, ghost before: seq<Vote>, scored: seq<Vote>) returns (r: map<string, real>)
    requires best == BestScores(before)
    ensures r == BestScores(before + scored)
  {
    r := best;
    assert before + scored[..0] == before;
    for j := 0 to |scored|
      invariant r == BestScores(before + scored[..j])
    {
      assert before + scored[..j + 1] == (before + scored[..j]) + [scored[j]];
      BestScoresSnoc(before + scored[..j], scored[j]);
      var (phrase, score) := scored[j];
      if phrase !in r || score > r[phrase] {
        r := r[phrase := score];
      }
    }
    assert scored[..|scored|] == scored;
  }

  /** What `main` of `collect_keywords_from_md.py` does with the text of a
      chunk: count its phrases, or keep their best scores. */
  method Aggregate(counts: map<string, nat>, best: map<string, real>, ghost texts: seq<string>, text: string,
                   extractAll: string -> seq<Vote>, byFrequency: bool)
    returns (counts': map<string, nat>, best': map<string, real>)
    requires counts == if byFrequency then CountAll(PhrasesOfTexts(texts, extractAll)) else map[]
    requires best == if byFrequency then map[] else BestScores(VotesOfTexts(texts, extractAll))
    ensures counts' == if byFrequency then CountAll(PhrasesOfTexts(texts + [text], extractAll)) else map[]
    ensures best' == if byFrequency then map[] else BestScores(VotesOfTexts(texts + [text], extractAll))
  {
    assert (texts + [text])[..|texts|] == texts;
    var scored := extractAll(text);
    counts', best' := counts, best;
    if byFrequency {
      counts' := AddCounts(counts, PhrasesOfTexts(texts, extractAll), KeysOf(scored));
    } else {
      best' := KeepBest(best, VotesOfTexts(texts, extractAll), scored);
    }
  }

  /** The exit status of `collect_keywords_from_md.py` after its loop. */
  function CollectAllExit(processed: nat): (code: int)
    ensures code == 0 <==> processed > 0
  {
    if processed == 0 then 1 else 0
  }

  /** The line loop and exit status of `main` in
      `collect_keywords_from_md.py`, for an extractor `extractAll` giving
      each text's scored phrases: by frequency it counts the phrases across
      chunks, by specificity it keeps each phrase's best score.  An
      exception ends the script with status 1. */
  method CollectAll(lines: seq<string>, parse: string -> Option<Json.Json>, extractAll: string -> seq<Vote>, byFrequency: bool)
    returns (run: LineRun<string>, counts: map<string, nat>, best: map<string, real>, code: int)
    ensures run == RunLines(lines, TextLine(parse))
    ensures counts == if byFrequency then CountAll(PhrasesOfTexts(run.taken, extractAll)) else map[]
    ensures best == if byFrequency then map[] else BestScores(VotesOfTexts(run.taken, extractAll))
    ensures code == if run.failure.Some? then 1 else CollectAllExit(|run.taken|)
  {
    ghost var step := TextLine(parse);
    var texts: seq<string> := [];
    var errors := 0;
    counts, best := map[], map[];
    for i := 0 to |lines|
      invariant RunLines(lines[..i], step) == LineRun(texts, errors, None)
      invariant counts == if byFrequency then CountAll(PhrasesOfTexts(texts, extractAll)) else map[]
      invariant best == if byFrequency then map[] else BestScores(VotesOfTexts(texts, extractAll))
    {
      RunLinesStep(lines, i, step);
      var line := lines[i];
      if Text.IsBlank(line) {
        continue;
      }
      var parsed := parse(line);
      if parsed.None? {
        errors := errors + 1;
        continue;
      }
      if !parsed.value.JObj? {
        run := LineRun(texts, errors, Some(NotAnObject));
        RunLinesStopped(lines, i + 1, step);
        return run, counts, best, 1;
      }
      var text := ChunkText(parsed.value.fields);
      if text.Err? {
        run := LineRun(texts, errors, Some(text.error));
        RunLinesStopped(lines, i + 1, step);
        return run, counts, best, 1;
      }
      if Text.IsBlank(text.value) {
        continue;
      }
      counts, best := Aggregate(counts, best, texts, text.value, extractAll, byFrequency);
      texts := texts + [text.value];
    }
    assert lines[..|lines|] == lines;
    run := LineRun(texts, errors, None);
    code := if |texts| == 0 then 1 else 0;
  }
}
