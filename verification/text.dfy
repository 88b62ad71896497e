/** The handful of Python string operations every pipeline stage relies on:
    whitespace, strip, split, join, word counting, case mapping and integer
    parsing.  Whitespace is Python's `str.isspace()`; case mapping covers
    ASCII and Latin-1 only. */
module Text {
  import opened Wrappers

  /** Python's `str.isspace()`: what `str.split()`, `str.strip()` and the
      regular-expression class `\s` treat as whitespace. */
  predicate IsSpace(c: char) {
    ('\t' <= c <= '\r') || ('\U{1C}' <= c <= ' ') || c == '\U{85}' || c == '\U{A0}'
    || c == '\U{1680}' || ('\U{2000}' <= c <= '\U{200A}') || c == '\U{2028}'
    || c == '\U{2029}' || c == '\U{202F}' || c == '\U{205F}' || c == '\U{3000}'
  }

  /** `not s.strip()`: the string holds only whitespace. */
  predicate IsBlank(s: string) {
    forall i :: 0 <= i < |s| ==> IsSpace(s[i])
  }

  predicate IsDigit(c: char) { '0' <= c <= '9' }

  predicate IsAsciiLetter(c: char) { ('a' <= c <= 'z') || ('A' <= c <= 'Z') }

  predicate StartsWith(s: string, prefix: string) {
    |prefix| <= |s| && s[..|prefix|] == prefix
  }

  predicate EndsWith(s: string, suffix: string) {
    |suffix| <= |s| && s[|s| - |suffix|..] == suffix
  }

  // ---------------------------------------------------------------- strip

  /** `s.lstrip(chars)` */
  function TrimStart(s: string, chars: set<char>): (r: string)
    ensures |r| <= |s| && r == s[|s| - |r|..]
    ensures forall i :: 0 <= i < |s| - |r| ==> s[i] in chars
    ensures r == "" || r[0] !in chars
  {
    if s != [] && s[0] in chars then
      var r := TrimStart(s[1..], chars);
      assert s[1..][|s| - 1 - |r|..] == s[|s| - |r|..];
      assert forall i :: 1 <= i < |s| - |r| ==> s[i] == s[1..][i - 1];
      r
    else s
  }

  /** A string that starts with a character other than the prefix's first
      one does not start with that prefix. */
  lemma {:induction false} NotStartsWith(s: string, prefix: string)
    requires s != "" && prefix != "" && s[0] != prefix[0]
    ensures !StartsWith(s, prefix)
  {
    if |prefix| <= |s| {
      assert s[..|prefix|][0] == s[0];
    }
  }

  /** `s.rstrip(chars)` */
  function TrimEnd(s: string, chars: set<char>): (r: string)
    ensures |r| <= |s| && r == s[..|r|]
    ensures forall i :: |r| <= i < |s| ==> s[i] in chars
    ensures r == "" || r[|r| - 1] !in chars
  {
    if s != [] && s[|s| - 1] in chars then TrimEnd(s[..|s| - 1], chars) else s
  }

  /** `rstrip` keeps a string whose last character is not stripped. */
  lemma {:induction false} TrimEndKeeps(s: string, chars: set<char>)
    requires s != "" && s[|s| - 1] !in chars
    ensures TrimEnd(s, chars) == s
  {
  }

  /** `s.lstrip()` */
  function LStrip(s: string): (r: string)
    ensures |r| <= |s| && r == s[|s| - |r|..]
    ensures forall i :: 0 <= i < |s| - |r| ==> IsSpace(s[i])
    ensures r == "" || !IsSpace(r[0])
  {
    if s != [] && IsSpace(s[0]) then
      var r := LStrip(s[1..]);
      assert s[1..][|s| - 1 - |r|..] == s[|s| - |r|..];
      assert forall i :: 1 <= i < |s| - |r| ==> s[i] == s[1..][i - 1];
      r
    else s
  }

  /** `s.rstrip()` */
  function RStrip(s: string): (r: string)
    ensures |r| <= |s| && r == s[..|r|]
    ensures forall i :: |r| <= i < |s| ==> IsSpace(s[i])
    ensures r == "" || !IsSpace(r[|r| - 1])
  {
    if s != [] && IsSpace(s[|s| - 1]) then RStrip(s[..|s| - 1]) else s
  }

  /** `s.strip()` */
  function Strip(s: string): string {
    RStrip(LStrip(s))
  }

  /** Neither end of `text` is whitespace. */
  predicate Stripped(text: string) {
    text == "" || (!IsSpace(text[0]) && !IsSpace(text[|text| - 1]))
  }

  /** Stripping leaves nothing exactly when the string is blank, and
      otherwise neither end of the result is whitespace. */
  lemma {:induction false} StripSpec(s: string)
    ensures Strip(s) == "" <==> IsBlank(s)
    ensures Strip(s) == "" || (!IsSpace(Strip(s)[0]) && !IsSpace(Strip(s)[|Strip(s)| - 1]))
  {
    var l := LStrip(s);
    assert RStrip(l) == "" ==> l == "";
  }

  /** `s.strip(chars)` for an explicit set of characters. */
  function StripChars(s: string, chars: set<char>): string {
    TrimEnd(TrimStart(s, chars), chars)
  }

  // ---------------------------------------------------------------- join and split

  /** `sep.join(parts)` */
  function Join(sep: string, parts: seq<string>): string {
    if |parts| == 0 then ""
    else if |parts| == 1 then parts[0]
    else parts[0] + sep + Join(sep, parts[1..])
  }

  lemma {:induction false} JoinNonEmpty(sep: string, parts: seq<string>)
    requires |parts| >= 1 && parts[0] != ""
    ensures Join(sep, parts) != ""
  {
    if |parts| > 1 {
      assert Join(sep, parts)[0] == parts[0][0];
    }
  }

  lemma {:induction false} JoinAppend(sep: string, parts: seq<string>, x: string)
    requires |parts| >= 1
    ensures Join(sep, parts + [x]) == Join(sep, parts) + sep + x
  {
    if |parts| == 1 {
      assert parts + [x] == [parts[0], x];
    } else {
      assert (parts + [x])[1..] == parts[1..] + [x];
      JoinAppend(sep, parts[1..], x);
    }
  }

  /** Index of the first occurrence of `c` in `s`. */
  function FirstIndex(s: string, c: char): (i: nat)
    requires c in s
    ensures i < |s| && s[i] == c && c !in s[..i]
  {
    if s[0] == c then 0 else 1 + FirstIndex(s[1..], c)
  }

  /** `s.split(c)` for a one-character separator: the pieces between the
      separators, empty pieces included; joining them back gives `s`. */
  function SplitOn(s: string, c: char): (parts: seq<string>)
    ensures |parts| >= 1
    ensures forall k :: 0 <= k < |parts| ==> c !in parts[k]
    ensures Join([c], parts) == s
    decreases |s|
  {
    if c !in s then [s]
    else
      var i := FirstIndex(s, c);
      var rest := SplitOn(s[i + 1..], c);
      assert s == s[..i] + [c] + s[i + 1..];
      assert ([s[..i]] + rest)[1..] == rest;
      [s[..i]] + rest
  }

  /** `s.splitlines()`, with the line feed as the only line break: a final
      line feed does not open an empty last line. */
  function SplitLines(s: string): (lines: seq<string>)
    ensures forall k :: 0 <= k < |lines| ==> '\n' !in lines[k]
    ensures s == "" ==> lines == []
    ensures s != "" ==> Join("\n", lines) + (if s[|s| - 1] == '\n' then "\n" else "") == s
  {
    if s == "" then []
    else
      var parts := SplitOn(s, '\n');
      if parts[|parts| - 1] == "" then
        var lines := parts[..|parts| - 1];
        SplitLinesDrop(s, parts);
        lines
      else
        SplitLinesKeep(s, parts);
        parts
  }

  lemma {:induction false} SplitLinesDrop(s: string, parts: seq<string>)
    requires s != "" && |parts| >= 1 && parts[|parts| - 1] == ""
    requires Join("\n", parts) == s
    ensures s[|s| - 1] == '\n'
    ensures Join("\n", parts[..|parts| - 1]) + "\n" == s
  {
    if |parts| == 1 {
      assert false;
    } else {
      var init := parts[..|parts| - 1];
      assert parts == init + [""];
      JoinAppend("\n", init, "");
      assert s == Join("\n", init) + "\n";
    }
  }

  lemma {:induction false} SplitLinesKeep(s: string, parts: seq<string>)
    requires s != "" && |parts| >= 1 && parts[|parts| - 1] != ""
    requires forall k :: 0 <= k < |parts| ==> '\n' !in parts[k]
    requires Join("\n", parts) == s
    ensures s[|s| - 1] != '\n'
  {
    var last := parts[|parts| - 1];
    if |parts| == 1 {
      assert s == last;
    } else {
      var init := parts[..|parts| - 1];
      assert parts == init + [last];
      JoinAppend("\n", init, last);
      assert s[|s| - 1] == last[|last| - 1];
    }
  }

  // ---------------------------------------------------------------- words

  /** Length of the leading run of non-whitespace characters. */
  function WordLength(t: string): (n: nat)
    ensures n <= |t|
    ensures forall i :: 0 <= i < n ==> !IsSpace(t[i])
    ensures n == |t| || IsSpace(t[n])
  {
    if t == [] || IsSpace(t[0]) then 0 else 1 + WordLength(t[1..])
  }

  /** `s.split()`: the maximal runs of non-whitespace characters, in order. */
  function Words(s: string): seq<string>
    decreases |s|
  {
    var t := LStrip(s);
    if t == "" then []
    else
      var n := WordLength(t);
      [t[..n]] + Words(t[n..])
  }

  /** `len(text.split())`: the word-count estimate used as a token budget,
      counted as the positions that start a word (see `EstimateTokensWords`). */
  function EstimateTokens(s: string): nat {
    WordStarts(s, true)
  }

  /** Number of positions that start a word, given whether the character
      just before `s` was whitespace (or absent). */
  function WordStarts(s: string, afterSpace: bool): nat {
    if s == [] then 0
    else (if afterSpace && !IsSpace(s[0]) then 1 else 0) + WordStarts(s[1..], IsSpace(s[0]))
  }

  lemma {:induction false} WordStartsConcat(a: string, b: string, p: bool)
    ensures WordStarts(a + b, p) == WordStarts(a, p) + WordStarts(b, if a == [] then p else IsSpace(a[|a| - 1]))
    decreases |a|
  {
    if a != [] {
      assert (a + b)[1..] == a[1..] + b;
      WordStartsConcat(a[1..], b, IsSpace(a[0]));
    } else {
      assert a + b == b;
    }
  }

  lemma {:induction false} WordStartsBlank(s: string, p: bool)
    requires IsBlank(s)
    ensures WordStarts(s, p) == 0
    decreases |s|
  {
    if s != [] { WordStartsBlank(s[1..], true); }
  }

  lemma {:induction false} WordStartsInsideWord(s: string, n: nat)
    requires n <= |s|
    requires forall i :: 0 <= i < n ==> !IsSpace(s[i])
    ensures WordStarts(s, false) == WordStarts(s[n..], false)
    decreases n
  {
    if n > 0 {
      assert s[1..][n - 1..] == s[n..];
      WordStartsInsideWord(s[1..], n - 1);
    }
  }

  /** Leading whitespace starts no word. */
  lemma {:induction false} WordStartsLStrip(s: string)
    ensures WordStarts(s, true) == WordStarts(LStrip(s), true)
    decreases |s|
  {
    if s != [] && IsSpace(s[0]) {
      WordStartsLStrip(s[1..]);
    }
  }

  /** A word at the front of `t` counts once, and counting resumes after it. */
  lemma {:induction false} WordStartsFirstWord(t: string)
    requires t != "" && !IsSpace(t[0])
    ensures WordStarts(t, true) == 1 + WordStarts(t[WordLength(t)..], true)
  {
    var n := WordLength(t);
    assert t[1..][n - 1..] == t[n..];
    WordStartsInsideWord(t[1..], n - 1);
    if n < |t| {
      assert t[n..][1..] == t[n + 1..];
    }
  }

  lemma {:induction false} WordsCount(s: string)
    ensures |Words(s)| == WordStarts(s, true)
    decreases |s|
  {
    var t := LStrip(s);
    WordStartsLStrip(s);
    if t != "" {
      var n := WordLength(t);
      WordsCount(t[n..]);
      WordStartsFirstWord(t);
    }
  }

  /** The estimate is the number of words `split()` returns. */
  lemma {:induction false} EstimateTokensWords(s: string)
    ensures EstimateTokens(s) == |Words(s)|
  {
    WordsCount(s);
  }

  /** Sum of the word counts of a list of blocks. */
  function SumTokens(blocks: seq<string>): nat {
    if blocks == [] then 0 else EstimateTokens(blocks[0]) + SumTokens(blocks[1..])
  }

  lemma {:induction false} SumTokensAppend(blocks: seq<string>, x: string)
    ensures SumTokens(blocks + [x]) == SumTokens(blocks) + EstimateTokens(x)
  {
    if blocks != [] {
      assert (blocks + [x])[1..] == blocks[1..] + [x];
      SumTokensAppend(blocks[1..], x);
    } else {
      assert [x][1..] == [];
    }
  }

  lemma {:induction false} SumTokensConcat(a: seq<string>, b: seq<string>)
    ensures SumTokens(a + b) == SumTokens(a) + SumTokens(b)
  {
    if a != [] {
      assert (a + b)[1..] == a[1..] + b;
      SumTokensConcat(a[1..], b);
    } else {
      assert a + b == b;
    }
  }

  lemma {:induction false} WordStartsAfterSpace(c: char, b: string, p: bool)
    requires IsSpace(c)
    ensures WordStarts([c] + b, p) == WordStarts(b, true)
  {
    assert ([c] + b)[1..] == b;
  }

  /** Joining two texts with a line feed adds up their word counts. */
  lemma {:induction false} EstimateTokensNewlineJoin(a: string, b: string)
    ensures EstimateTokens(a + "\n" + b) == EstimateTokens(a) + EstimateTokens(b)
  {
    var nb := "\n" + b;
    assert a + "\n" + b == a + nb;
    WordStartsConcat(a, nb, true);
    WordStartsAfterSpace('\n', b, if a == [] then true else IsSpace(a[|a| - 1]));
  }

  /** The estimate of `"\n".join(blocks)` is the sum of the blocks' estimates. */
  lemma {:induction false} EstimateTokensJoin(blocks: seq<string>)
    ensures EstimateTokens(Join("\n", blocks)) == SumTokens(blocks)
  {
    if |blocks| == 1 {
      assert blocks[1..] == [];
    } else if |blocks| > 1 {
      EstimateTokensJoin(blocks[1..]);
      EstimateTokensNewlineJoin(blocks[0], Join("\n", blocks[1..]));
    }
  }

  /** Trailing whitespace starts no word. */
  lemma {:induction false} WordStartsRStrip(l: string)
    ensures WordStarts(l, true) == WordStarts(RStrip(l), true)
  {
    var r := RStrip(l);
    assert l == r + l[|r|..];
    WordStartsConcat(r, l[|r|..], true);
    WordStartsBlank(l[|r|..], if r == [] then true else IsSpace(r[|r| - 1]));
  }

  /** Stripping never changes the word count. */
  lemma {:induction false} EstimateTokensStrip(s: string)
    ensures EstimateTokens(Strip(s)) == EstimateTokens(s)
  {
    WordStartsLStrip(s);
    WordStartsRStrip(LStrip(s));
  }

  /** `re.sub(r"\s+", " ", s)`: every whitespace run becomes one space. */
  function CollapseSpaces(s: string): (r: string)
    ensures forall i :: 0 <= i < |r| ==> (IsSpace(r[i]) ==> r[i] == ' ')
    ensures forall i :: 0 <= i < |r| - 1 ==> !(IsSpace(r[i]) && IsSpace(r[i + 1]))
    ensures r == "" <==> s == ""
    ensures s != "" ==> (IsSpace(r[0]) <==> IsSpace(s[0]))
    decreases |s|
  {
    if s == "" then ""
    else if IsSpace(s[0]) then
      var rest := LStrip(s);
      assert |rest| < |s|;
      " " + CollapseSpaces(rest)
    else [s[0]] + CollapseSpaces(s[1..])
  }

  /** A string whose only whitespace is single spaces is left alone. */
  lemma {:induction false} CollapseSpacesClean(s: string)
    requires forall i :: 0 <= i < |s| ==> (IsSpace(s[i]) ==> s[i] == ' ')
    requires forall i :: 0 <= i < |s| - 1 ==> !(IsSpace(s[i]) && IsSpace(s[i + 1]))
    ensures CollapseSpaces(s) == s
  {
    if s != "" {
      CollapseSpacesClean(s[1..]);
      if IsSpace(s[0]) {
        assert LStrip(s) == s[1..] by {
          assert LStrip(s) == LStrip(s[1..]);
          if |s| > 1 {
            assert !IsSpace(s[1]);
          }
        }
        assert s == " " + s[1..];
      } else {
        assert s == [s[0]] + s[1..];
      }
    }
  }

  // ---------------------------------------------------------------- case

  /** `str.lower()` on one character, for ASCII and Latin-1 letters. */
  function LowerChar(c: char): char {
    if 'A' <= c <= 'Z' then (c as int + 32) as char
    else if '\U{C0}' <= c <= '\U{DE}' && c != '\U{D7}' then (c as int + 32) as char
    else if c == '\U{178}' then '\U{FF}'
    else c
  }

  function Lower(s: string): (r: string)
    ensures |r| == |s| && forall i :: 0 <= i < |s| ==> r[i] == LowerChar(s[i])
  {
    seq(|s|, i requires 0 <= i < |s| => LowerChar(s[i]))
  }

  /** `str.upper()` on one character, for ASCII and Latin-1 letters;
      the sharp s becomes two letters, as in Python. */
  function UpperChar(c: char): string {
    if 'a' <= c <= 'z' then [(c as int - 32) as char]
    else if '\U{E0}' <= c <= '\U{FE}' && c != '\U{F7}' then [(c as int - 32) as char]
    else if c == '\U{DF}' then "SS"
    else if c == '\U{FF}' then ['\U{178}']
    else if c == '\U{B5}' then ['\U{39C}']
    else [c]
  }

  function Upper(s: string): string {
    if s == "" then "" else UpperChar(s[0]) + Upper(s[1..])
  }

  lemma {:induction false} UpperAppend(a: string, b: string)
    ensures Upper(a + b) == Upper(a) + Upper(b)
  {
    if a != "" {
      assert (a + b)[1..] == a[1..] + b;
      UpperAppend(a[1..], b);
    } else {
      assert a + b == b;
    }
  }

  /** An upper-cased character is its own upper case. */
  lemma {:induction false} UpperCharFixed(c: char)
    ensures Upper(UpperChar(c)) == UpperChar(c)
  {
    var u := UpperChar(c);
    if |u| == 1 {
      assert Upper(u) == UpperChar(u[0]) + Upper(u[1..]);
    } else {
      assert u == "SS";
      assert Upper(u) == UpperChar('S') + Upper("S");
      assert Upper("S") == UpperChar('S') + Upper("");
    }
  }

  /** `str.upper()` is idempotent. */
  lemma {:induction false} UpperIdempotent(s: string)
    ensures Upper(Upper(s)) == Upper(s)
  {
    if s != "" {
      UpperIdempotent(s[1..]);
      UpperCharFixed(s[0]);
      UpperAppend(UpperChar(s[0]), Upper(s[1..]));
    }
  }

  /** `str.upper()` leaves no ASCII lower-case letter. */
  lemma {:induction false} UpperNoLower(s: string)
    ensures forall i :: 0 <= i < |Upper(s)| ==> !('a' <= Upper(s)[i] <= 'z')
  {
    if s != "" {
      UpperNoLower(s[1..]);
      var u := UpperChar(s[0]);
      var rest := Upper(s[1..]);
      assert Upper(s) == u + rest;
      forall i | 0 <= i < |u| + |rest| ensures !('a' <= (u + rest)[i] <= 'z') {
        if i >= |u| {
          assert (u + rest)[i] == rest[i - |u|];
        }
      }
    }
  }

  // ---------------------------------------------------------------- numbers

  function DigitChar(d: nat): char
    requires d < 10
  {
    ('0' as int + d) as char
  }

  /** `str(n)` for a natural number. */
  function NatToString(n: nat): (s: string)
    ensures |s| >= 1 && forall i :: 0 <= i < |s| ==> IsDigit(s[i])
  {
    if n < 10 then [DigitChar(n)] else NatToString(n / 10) + [DigitChar(n % 10)]
  }

  /** Value of a string of decimal digits. */
  function DigitsValue(s: string): nat
    requires forall i :: 0 <= i < |s| ==> IsDigit(s[i])
  {
    if s == [] then 0
    else
      assert IsDigit(s[|s| - 1]);
      DigitsValue(s[..|s| - 1]) * 10 + (s[|s| - 1] as int - '0' as int)
  }

  /** Reading back what `NatToString` writes gives the number again. */
  lemma {:induction false} NatToStringRoundTrip(n: nat)
    ensures DigitsValue(NatToString(n)) == n
  {
    if n >= 10 {
      var s := NatToString(n);
      assert s[..|s| - 1] == NatToString(n / 10);
      NatToStringRoundTrip(n / 10);
    }
  }

  /** Ids that share a prefix and end in different numbers differ. */
  lemma {:induction false} NumberedIdsDiffer(prefix: string, a: nat, b: nat)
    requires a != b
    ensures prefix + NatToString(a) != prefix + NatToString(b)
  {
    var x := prefix + NatToString(a);
    var y := prefix + NatToString(b);
    if x == y {
      assert x[|prefix|..] == NatToString(a);
      assert y[|prefix|..] == NatToString(b);
      NatToStringRoundTrip(a);
      NatToStringRoundTrip(b);
    }
  }

  /** Python's integer literal body: digits, with single underscores allowed
      between two digits. */
  predicate IsIntBody(s: string) {
    |s| > 0 && IsDigit(s[0]) && IsDigit(s[|s| - 1])
    && (forall i :: 0 <= i < |s| ==> IsDigit(s[i]) || s[i] == '_')
    && (forall i :: 0 <= i < |s| - 1 ==> !(s[i] == '_' && s[i + 1] == '_'))
  }

  function RemoveUnderscores(s: string): (r: string)
    requires forall i :: 0 <= i < |s| ==> IsDigit(s[i]) || s[i] == '_'
    ensures forall i :: 0 <= i < |r| ==> IsDigit(r[i])
    ensures (forall i :: 0 <= i < |s| ==> IsDigit(s[i])) ==> r == s
  {
    if s == "" then ""
    else if s[0] == '_' then RemoveUnderscores(s[1..])
    else [s[0]] + RemoveUnderscores(s[1..])
  }

  /** `int(s)` for a string: surrounding whitespace, an optional sign, then
      an integer literal body; anything else raises ValueError (None). */
  function ParseInt(s: string): Option<int> {
    ParseSigned(Strip(s))
  }

  /** An optional sign followed by an integer literal body. */
  function ParseSigned(t: string): Option<int> {
    if |t| > 0 && t[0] == '-' then
      match ParseBody(t[1..])
      case Some(v) => Some(-v)
      case None => None
    else if |t| > 0 && t[0] == '+' then ParseBody(t[1..])
    else ParseBody(t)
  }

  function ParseBody(b: string): Option<int> {
    if IsIntBody(b) then Some(DigitsValue(RemoveUnderscores(b))) else None
  }

  /** A string that neither starts nor ends with whitespace is its own strip. */
  lemma {:induction false} StripUnchanged(s: string)
    requires s != "" && !IsSpace(s[0]) && !IsSpace(s[|s| - 1])
    ensures Strip(s) == s
  {
    assert LStrip(s) == s;
    assert RStrip(s) == s;
  }

  /** Stripping twice is stripping once. */
  lemma {:induction false} StripIdempotent(s: string)
    ensures Strip(Strip(s)) == Strip(s)
  {
    StripSpec(s);
    if Strip(s) != "" {
      StripUnchanged(Strip(s));
    }
  }

  lemma {:induction false} DigitNotSpace(c: char)
    requires IsDigit(c)
    ensures !IsSpace(c) && c != '-' && c != '+' && c != '_'
  {
  }

  lemma {:induction false} DigitsAreIntBody(s: string)
    requires s != "" && forall i :: 0 <= i < |s| ==> IsDigit(s[i])
    ensures ParseBody(s) == Some(DigitsValue(s))
  {
    assert IsIntBody(s) by {
      forall i | 0 <= i < |s| - 1 ensures !(s[i] == '_' && s[i + 1] == '_') {
        DigitNotSpace(s[i]);
      }
    }
    assert RemoveUnderscores(s) == s;
  }

  /** A plain digit string is parsed to its value. */
  lemma {:induction false} ParseIntDigits(s: string)
    requires s != "" && forall i :: 0 <= i < |s| ==> IsDigit(s[i])
    ensures ParseInt(s) == Some(DigitsValue(s))
  {
    DigitNotSpace(s[0]);
    DigitNotSpace(s[|s| - 1]);
    StripUnchanged(s);
    DigitsAreIntBody(s);
  }

  /** `int(str(n)) == n` */
  lemma {:induction false} ParseIntNatToString(n: nat)
    ensures ParseInt(NatToString(n)) == Some(n)
  {
    ParseIntDigits(NatToString(n));
    NatToStringRoundTrip(n);
  }
}
