/** The LLM keyword updater: for every chunk record of an NDJSON stream it
    asks a model for keywords and replaces the record's `keywords` with
    the sanitised answer. The model endpoint and the JSON decoder are
    parameters (`generate`, `parse`); sanitising the answer is modelled
    exactly: label and bullet prefixes, surrounding punctuation,
    whitespace runs, then a case-insensitive dedupe with a cap. */
module LlmKeywords {
  import opened Wrappers
  import Text
  import Json

  type Fields = seq<(string, Json.Json)>

  // ---------------------------------------------------------------- base URL

  /** The base of `_compute_base_url()` before its trailing slashes are
      dropped, given the value of `OLLAMA_HOST` (`""` when unset). */
  function BaseOf(hostEnv: string): string {
    var stripped := Text.Strip(hostEnv);
    var host := if stripped == "" then "localhost" else stripped;
    if Text.StartsWith(host, "http://") || Text.StartsWith(host, "https://") then host
    else "http://" + host + ":11434"
  }

  /** `_compute_base_url()` */
  function ComputeBaseUrl(hostEnv: string): string {
    Text.TrimEnd(BaseOf(hostEnv), {'/'})
  }

  /** No base URL ends in a slash. */
  lemma {:induction false} ComputeBaseUrlNoSlash(hostEnv: string)
    ensures var url := ComputeBaseUrl(hostEnv); url == "" || url[|url| - 1] != '/'
  {
  }

  /** An unset or blank host means the local server on the default port. */
  lemma {:induction false} ComputeBaseUrlLocal(hostEnv: string)
    requires Text.IsBlank(hostEnv)
    ensures ComputeBaseUrl(hostEnv) == "http://localhost:11434"
  {
    Text.StripSpec(hostEnv);
    Text.NotStartsWith("localhost", "http://");
    Text.NotStartsWith("localhost", "https://");
    ComputeBaseUrlBareHost("localhost");
  }

  lemma {:induction false} ComputeBaseUrlBareHost(host: string)
    requires host != ""
    ensures Text.TrimEnd("http://" + host + ":11434", {'/'}) == "http://" + host + ":11434"
  {
    var base := "http://" + host + ":11434";
    assert base[|base| - 1] == '4';
    Text.TrimEndKeeps(base, {'/'});
  }

  /** A host without a scheme gets `http://` and the default port. */
  lemma {:induction false} ComputeBaseUrlBare(hostEnv: string)
    requires var host := Text.Strip(hostEnv);
      host != "" && !Text.StartsWith(host, "http://") && !Text.StartsWith(host, "https://")
    ensures ComputeBaseUrl(hostEnv) == "http://" + Text.Strip(hostEnv) + ":11434"
  {
    ComputeBaseUrlBareHost(Text.Strip(hostEnv));
  }

  /** A host with a scheme is kept, less its trailing slashes. */
  lemma {:induction false} ComputeBaseUrlScheme(hostEnv: string)
    requires var host := Text.Strip(hostEnv);
      Text.StartsWith(host, "http://") || Text.StartsWith(host, "https://")
    ensures var url := ComputeBaseUrl(hostEnv);
      url == Text.TrimEnd(Text.Strip(hostEnv), {'/'}) && Text.StartsWith(Text.Strip(hostEnv), url)
  {
  }

  // ---------------------------------------------------------------- label and bullet prefixes

  /** One letter of a case-insensitive pattern: its upper- or lower-case
      form, plus the two non-ASCII letters Python also folds to `s` and
      `k` (long s and the Kelvin sign). */
  predicate LetterCI(c: char, l: char) {
    Text.LowerChar(c) == l || (l == 's' && c == '\U{17F}') || (l == 'k' && c == '\U{212A}')
  }

  /** The pattern word `w` matches at `i`, ignoring case. */
  predicate WordCIAt(s: string, i: nat, w: string) {
    i + |w| <= |s| && forall k :: 0 <= k < |w| ==> LetterCI(s[i + k], w[k])
  }

  lemma {:induction false} NoWordAt(s: string, i: nat, w: string)
    requires i < |s| && w != [] && !LetterCI(s[i], w[0])
    ensures !WordCIAt(s, i, w)
  {
    assert s[i + 0] == s[i];
  }

  /** `\s*` from `i`: the end of the whitespace run. */
  function SpacesFrom(s: string, i: nat): (j: nat)
    requires i <= |s|
    ensures i <= j <= |s| && (j == |s| || !Text.IsSpace(s[j]))
    ensures forall k :: i <= k < j ==> Text.IsSpace(s[k])
    decreases |s| - i
  {
    if i < |s| && Text.IsSpace(s[i]) then SpacesFrom(s, i + 1) else i
  }

  /** `\d+` from `i`: the end of the digit run. */
  function DigitsFrom(s: string, i: nat): (j: nat)
    requires i <= |s|
    ensures i <= j <= |s| && (j == |s| || !Text.IsDigit(s[j]))
    decreases |s| - i
  {
    if i < |s| && Text.IsDigit(s[i]) then DigitsFrom(s, i + 1) else i
  }

  /** An optional letter matched case-insensitively (`s?` under `(?i)`). */
  function OptionalCI(s: string, i: nat, l: char): (j: nat)
    requires i <= |s|
    ensures i <= j <= |s|
  {
    if i < |s| && LetterCI(s[i], l) then i + 1 else i
  }

  /** The end of `mots?-?\s*clés?|keywords?` at `i`, if it matches there.
      Every optional part is followed by something it cannot be, so the
      first way the regular-expression engine finds is the greedy one. */
  function LabelWordEnd(s: string, i: nat): Option<nat>
    requires i <= |s|
  {
    if WordCIAt(s, i, "mot") then
      var afterS := OptionalCI(s, i + 3, 's');
      var afterHyphen := if afterS < |s| && s[afterS] == '-' then afterS + 1 else afterS;
      var j := SpacesFrom(s, afterHyphen);
      if WordCIAt(s, j, "cl\U{E9}") then Some(OptionalCI(s, j + 3, 's')) else None
    else if WordCIAt(s, i, "keyword") then Some(OptionalCI(s, i + 7, 's'))
    else None
  }

  /** The length of the match of `(?i)^\s*(?:mots?-?\s*clés?|keywords?)\s*:\s*`. */
  function LabelLength(s: string): (n: Option<nat>)
    ensures n.Some? ==> n.value <= |s| && 0 < n.value && ':' in s[..n.value]
    ensures n.Some? ==> n.value == |s| || !Text.IsSpace(s[n.value])
  {
    var i := SpacesFrom(s, 0);
    match LabelWordEnd(s, i)
    case None => None
    case Some(j) =>
      if j <= |s| then
        var k := SpacesFrom(s, j);
        if k < |s| && s[k] == ':' then
          var n := SpacesFrom(s, k + 1);
          assert s[..n][k] == ':';
          Some(n)
        else None
      else None
  }

  /** The characters of `[-–•●·]`. */
  predicate IsBulletChar(c: char) {
    c == '-' || c == '\U{2013}' || c == '\U{2022}' || c == '\U{25CF}' || c == '\U{B7}'
  }

  /** The length of the match of `^\s*(?:\d+[\.\)]\s*|[-–•●·]\s*)`. */
  function BulletLength(s: string): (n: Option<nat>)
    ensures n.Some? ==> 0 < n.value <= |s| && (n.value == |s| || !Text.IsSpace(s[n.value]))
  {
    var i := SpacesFrom(s, 0);
    if i < |s| && Text.IsDigit(s[i]) then
      var j := DigitsFrom(s, i);
      if j < |s| && (s[j] == '.' || s[j] == ')') then Some(SpacesFrom(s, j + 1)) else None
    else if i < |s| && IsBulletChar(s[i]) then Some(SpacesFrom(s, i + 1))
    else None
  }

  /** `pattern.sub("", s)` for a pattern anchored at the start. */
  function DropPrefix(s: string, n: Option<nat>): string
    requires n.Some? ==> n.value <= |s|
  {
    if n.Some? then s[n.value..] else s
  }

  /** The characters of `" \t\r\n\"'.,;:()[]{}"`. */
  const Surrounding: set<char> := {' ', '\t', '\r', '\n', '"', '\'', '.', ',', ';', ':', '(', ')', '[', ']', '{', '}'}

  /** `_normalize_keyword(s)` */
  function DropLabel(s: string): string {
    DropPrefix(s, LabelLength(s))
  }

  function DropBullet(s: string): string {
    DropPrefix(s, BulletLength(s))
  }

  /** The last two lines of `_normalize_keyword`: strip whitespace, then
      the surrounding characters, then collapse whitespace runs. */
  function Tidy(s: string): string {
    Text.CollapseSpaces(Text.StripChars(Text.Strip(s), Surrounding))
  }

  /** `_normalize_keyword(s)` */
  function NormalizeKeyword(s: string): string {
    Tidy(DropBullet(DropLabel(Text.Strip(s))))
  }

  /** A keyword as the model should give it: not empty, no colon, not
      starting with a digit or a bullet, no surrounding quote or
      punctuation, and single spaces as its only whitespace. */
  predicate IsCleanKeyword(k: string) {
    && k != ""
    && ':' !in k
    && !Text.IsDigit(k[0]) && !IsBulletChar(k[0])
    && k[0] !in Surrounding && k[|k| - 1] !in Surrounding
    && !Text.IsSpace(k[0]) && !Text.IsSpace(k[|k| - 1])
    && (forall i :: 0 <= i < |k| ==> (Text.IsSpace(k[i]) ==> k[i] == ' '))
    && (forall i :: 0 <= i < |k| - 1 ==> !(Text.IsSpace(k[i]) && Text.IsSpace(k[i + 1])))
  }

  /** A string without a colon carries no label. */
  lemma {:induction false} NoColonNoLabel(s: string)
    requires ':' !in s
    ensures DropLabel(s) == s
  {
  }

  /** A string that starts with neither a digit nor a bullet carries no
      bullet. */
  lemma {:induction false} NoBullet(s: string)
    requires s != "" && !Text.IsSpace(s[0]) && !Text.IsDigit(s[0]) && !IsBulletChar(s[0])
    ensures DropBullet(s) == s
  {
    assert SpacesFrom(s, 0) == 0;
  }

  /** `- ` in front of a word is a bullet. */
  lemma {:induction false} DashBullet(k: string)
    requires k != "" && !Text.IsSpace(k[0])
    ensures DropBullet("- " + k) == k
  {
    var s := "- " + k;
    assert s[0] == '-' && s[1] == ' ' && s[2..] == k && s[2] == k[0];
    assert SpacesFrom(s, 0) == 0;
    assert SpacesFrom(s, 1) == 2 by { assert SpacesFrom(s, 2) == 2; }
  }

  /** The digit run from `i` ends where the digits do. */
  lemma {:induction false} DigitsFromRun(s: string, i: nat, j: nat)
    requires i <= j < |s| && !Text.IsDigit(s[j])
    requires forall k :: i <= k < j ==> Text.IsDigit(s[k])
    ensures DigitsFrom(s, i) == j
    decreases j - i
  {
    if i < j {
      DigitsFromRun(s, i + 1, j);
    }
  }

  /** `<n>. ` in front of a word is an index. */
  lemma {:induction false} IndexBullet(n: nat, k: string)
    requires k != "" && !Text.IsSpace(k[0])
    ensures DropBullet(Text.NatToString(n) + ". " + k) == k
  {
    var d := Text.NatToString(n);
    var s := d + ". " + k;
    assert s[|d|] == '.' && s[|d| + 1] == ' ' && s[|d| + 2..] == k && s[|d| + 2] == k[0];
    assert forall m :: 0 <= m < |d| ==> s[m] == d[m];
    Text.DigitNotSpace(d[0]);
    assert SpacesFrom(s, 0) == 0;
    DigitsFromRun(s, 0, |d|);
    assert SpacesFrom(s, |d| + 1) == |d| + 2 by { assert SpacesFrom(s, |d| + 2) == |d| + 2; }
  }

  /** `keywords: ` in front of a word is a label. */
  lemma {:induction false} KeywordsLabel(k: string)
    requires k != "" && !Text.IsSpace(k[0])
    ensures DropLabel("keywords: " + k) == k
  {
    var s := "keywords: " + k;
    assert s[..10] == "keywords: " && s[10..] == k && s[10] == k[0];
    assert SpacesFrom(s, 0) == 0;
    NoWordAt(s, 0, "mot");
    assert WordCIAt(s, 0, "keyword") by {
      forall i | 0 <= i < 7 ensures LetterCI(s[i], "keyword"[i]) {
        assert s[i] == "keyword"[i];
      }
    }
    assert OptionalCI(s, 7, 's') == 8;
    assert SpacesFrom(s, 8) == 8;
    assert SpacesFrom(s, 9) == 10 by { assert SpacesFrom(s, 10) == 10; }
  }

  /** The last steps leave a clean keyword alone. */
  lemma {:induction false} TidyClean(k: string)
    requires IsCleanKeyword(k)
    ensures Tidy(k) == k
  {
    Text.StripUnchanged(k);
    assert Text.TrimStart(k, Surrounding) == k;
    assert Text.TrimEnd(k, Surrounding) == k;
    Text.CollapseSpacesClean(k);
  }

  /** The last steps drop the quotes around a clean keyword. */
  lemma {:induction false} TidyQuoted(k: string)
    requires IsCleanKeyword(k)
    ensures Tidy("\"" + k + "\"") == k
  {
    var s := "\"" + k + "\"";
    assert s[0] == '"' && s[|s| - 1] == '"';
    Text.StripUnchanged(s);
    TrimQuotes(k);
    Text.CollapseSpacesClean(k);
  }

  lemma {:induction false} TrimQuotes(k: string)
    requires k != "" && k[0] !in Surrounding && k[|k| - 1] !in Surrounding
    ensures Text.StripChars("\"" + k + "\"", Surrounding) == k
  {
    var s := "\"" + k + "\"";
    var t := k + "\"";
    assert s[1..] == t && t[0] == k[0];
    assert Text.TrimStart(s, Surrounding) == t;
    assert t[..|t| - 1] == k && t[|t| - 1] == '"';
    assert Text.TrimEnd(t, Surrounding) == Text.TrimEnd(k, Surrounding);
  }

  /** A clean keyword is its own normal form. */
  lemma {:induction false} NormalizeClean(k: string)
    requires IsCleanKeyword(k)
    ensures NormalizeKeyword(k) == k
  {
    Text.StripUnchanged(k);
    NoColonNoLabel(k);
    NoBullet(k);
    TidyClean(k);
  }

  /** A dash bullet in front of a clean keyword is dropped. */
  lemma {:induction false} NormalizeBulleted(k: string)
    requires IsCleanKeyword(k)
    ensures NormalizeKeyword("- " + k) == k
  {
    var s := "- " + k;
    assert s[0] == '-' && s[|s| - 1] == k[|k| - 1] && ':' !in s;
    Text.StripUnchanged(s);
    NoColonNoLabel(s);
    DashBullet(k);
    TidyClean(k);
  }

  /** An index `<n>. ` in front of a clean keyword is dropped. */
  lemma {:induction false} NormalizeIndexed(n: nat, k: string)
    requires IsCleanKeyword(k)
    ensures NormalizeKeyword(Text.NatToString(n) + ". " + k) == k
  {
    var d := Text.NatToString(n);
    var s := d + ". " + k;
    assert s[0] == d[0] && s[|s| - 1] == k[|k| - 1];
    Text.DigitNotSpace(d[0]);
    assert ':' !in s by {
      assert forall m :: 0 <= m < |d| ==> s[m] == d[m];
      assert forall m :: |d| + 2 <= m < |s| ==> s[m] == k[m - |d| - 2];
    }
    Text.StripUnchanged(s);
    NoColonNoLabel(s);
    IndexBullet(n, k);
    TidyClean(k);
  }

  /** Double quotes around a clean keyword are dropped. */
  lemma {:induction false} NormalizeQuoted(k: string)
    requires IsCleanKeyword(k)
    ensures NormalizeKeyword("\"" + k + "\"") == k
  {
    var s := "\"" + k + "\"";
    assert s[0] == '"' && s[|s| - 1] == '"' && ':' !in s;
    Text.StripUnchanged(s);
    NoColonNoLabel(s);
    NoBullet(s);
    TidyQuoted(k);
  }

  /** A `keywords:` label in front of a clean keyword is dropped. */
  lemma {:induction false} NormalizeLabelled(k: string)
    requires IsCleanKeyword(k)
    ensures NormalizeKeyword("keywords: " + k) == k
  {
    var s := "keywords: " + k;
    assert s[0] == 'k' && s[|s| - 1] == k[|k| - 1];
    Text.StripUnchanged(s);
    KeywordsLabel(k);
    NoBullet(k);
    TidyClean(k);
  }

  // ---------------------------------------------------------------- sanitising the answer

  /** The lowered forms of the kept keywords: the `seen` set. */
  function LowerSet(xs: seq<string>): set<string> {
    set k | k in xs :: Text.Lower(k)
  }

  /** The loop has hit `break`: something was kept and the cap reached. */
  predicate Stopped(kept: seq<string>, maxKeywords: int) {
    |kept| >= 1 && |kept| >= maxKeywords
  }

  /** The keywords the loop of `_extract_keywords_from_response` keeps from
      the items, for a normaliser `norm`: each item's normal form, unless
      it is empty or its lowered form was seen, until the cap stops the
      loop. */
  function Sanitized(items: seq<string>, maxKeywords: int, norm: string -> string): seq<string> {
    if items == [] then []
    else
      var kept := Sanitized(items[..|items| - 1], maxKeywords, norm);
      var kw := norm(items[|items| - 1]);
      if Stopped(kept, maxKeywords) || kw == "" || Text.Lower(kw) in LowerSet(kept) then kept
      else kept + [kw]
  }

  /** `_try_parse_json_array(text)`, given the decoder: the items as `str`
      renders them when the stripped text decodes to a list. */
  function TryParseJsonArray(text: string, parse: string -> Option<Json.Json>): (r: Option<seq<string>>)
    ensures r.Some? <==> parse(Text.Strip(text)).Some? && parse(Text.Strip(text)).value.JArr?
    ensures r.Some? ==> |r.value| == |parse(Text.Strip(text)).value.items|
  {
    match parse(Text.Strip(text))
    case Some(JArr(items)) => Some(seq(|items|, i requires 0 <= i < |items| => Json.PyStr(items[i])))
    case _ => None
  }

  /** `_extract_keywords_from_response(resp_text, max_keywords)` */
  function KeywordsFromResponse(respText: string, maxKeywords: int, parse: string -> Option<Json.Json>): seq<string> {
    if respText == "" then []
    else
      var arr := TryParseJsonArray(respText, parse);
      Sanitized(if arr.Some? then arr.value else [], maxKeywords, NormalizeKeyword)
  }

  /** `_extract_keywords_from_response(resp_text, max_keywords)` */
  method ExtractKeywordsFromResponse(respText: string, maxKeywords: int, parse: string -> Option<Json.Json>)
    returns (cleaned: seq<string>)
    ensures cleaned == KeywordsFromResponse(respText, maxKeywords, parse)
  {
    if respText == "" {
      cleaned := [];
    } else {
      var arr := TryParseJsonArray(respText, parse);
      cleaned := SanitizeLoop(if arr.Some? then arr.value else [], maxKeywords, NormalizeKeyword);
    }
  }

  /** The loop of `_extract_keywords_from_response`, with its `seen` set
      and its `break`, for a normaliser `norm`. */
  method SanitizeLoop(items: seq<string>, maxKeywords: int, norm: string -> string) returns (cleaned: seq<string>)
    ensures cleaned == Sanitized(items, maxKeywords, norm)
  {
    cleaned := [];
    var seen: set<string> := {};
    var i := 0;
    var stop := false;
    while i < |items| && !stop
      invariant i <= |items|
      invariant cleaned == Sanitized(items[..i], maxKeywords, norm)
      invariant seen == LowerSet(cleaned)
      invariant stop <==> Stopped(cleaned, maxKeywords)
    {
      SanitizedStep(items, maxKeywords, norm, i);
      var kw := norm(items[i]);
      if kw != "" {
        var low := Text.Lower(kw);
        if low !in seen {
          seen := seen + {low};
          cleaned := cleaned + [kw];
          stop := |cleaned| >= maxKeywords;
        }
      }
      i := i + 1;
    }
    SanitizedStopped(items, maxKeywords, norm, i);
  }

  /** One more item, while the loop runs: it is kept exactly when its
      normal form is not empty and its lowered form not seen. */
  lemma {:induction false} SanitizedStep(items: seq<string>, maxKeywords: int, norm: string -> string, i: nat)
    requires i < |items| && !Stopped(Sanitized(items[..i], maxKeywords, norm), maxKeywords)
    ensures var kept := Sanitized(items[..i], maxKeywords, norm);
      var kw := norm(items[i]);
      && Sanitized(items[..i + 1], maxKeywords, norm) == (if kw == "" || Text.Lower(kw) in LowerSet(kept) then kept else kept + [kw])
      && LowerSet(kept + [kw]) == LowerSet(kept) + {Text.Lower(kw)}
  {
    assert items[..i + 1][..i] == items[..i];
    var kept := Sanitized(items[..i], maxKeywords, norm);
    var kw := norm(items[i]);
    assert LowerSet(kept + [kw]) == LowerSet(kept) + {Text.Lower(kw)} by {
      forall x ensures x in LowerSet(kept + [kw]) <==> x in LowerSet(kept) + {Text.Lower(kw)} {
        if x in LowerSet(kept + [kw]) {
          var k :| k in kept + [kw] && Text.Lower(k) == x;
        }
        if x in LowerSet(kept) {
          var k :| k in kept && Text.Lower(k) == x;
          assert k in kept + [kw];
        }
        assert kw in kept + [kw];
      }
    }
  }

  /** Once the loop stops, the remaining items change nothing. */
  lemma {:induction false} SanitizedStopped(items: seq<string>, maxKeywords: int, norm: string -> string, i: nat)
    requires i <= |items|
    requires i == |items| || Stopped(Sanitized(items[..i], maxKeywords, norm), maxKeywords)
    ensures Sanitized(items, maxKeywords, norm) == Sanitized(items[..i], maxKeywords, norm)
    decreases |items|
  {
    if i < |items| {
      var init := items[..|items| - 1];
      assert init[..i] == items[..i];
      SanitizedStopped(init, maxKeywords, norm, i);
    } else {
      assert items[..i] == items;
    }
  }

  /** The kept keywords are not empty, no two of them are equal ignoring
      case, and there are at most `maxKeywords` of them (one when the cap
      is below one, because the loop tests the cap after keeping). */
  lemma {:induction false} SanitizedDistinct(items: seq<string>, maxKeywords: int, norm: string -> string)
    ensures var r := Sanitized(items, maxKeywords, norm);
      && (forall k :: 0 <= k < |r| ==> r[k] != "")
      && (forall i, j :: 0 <= i < j < |r| ==> Text.Lower(r[i]) != Text.Lower(r[j]))
      && |r| <= (if maxKeywords >= 1 then maxKeywords else 1)
  {
    if items != [] {
      var init := items[..|items| - 1];
      SanitizedDistinct(init, maxKeywords, norm);
      var kept := Sanitized(init, maxKeywords, norm);
      var kw := norm(items[|items| - 1]);
      var r := Sanitized(items, maxKeywords, norm);
      if r != kept {
        assert r == kept + [kw];
        forall i, j | 0 <= i < j < |r| ensures Text.Lower(r[i]) != Text.Lower(r[j]) {
          if j == |kept| {
            assert r[i] in kept;
          }
        }
      }
    }
  }

  /** The kept keywords are the normal forms of items, in item order, each
      taken from the first item with that lowered form. */
  lemma {:induction false} SanitizedFirstSpelling(items: seq<string>, maxKeywords: int, norm: string -> string)
    ensures forall kw :: kw in Sanitized(items, maxKeywords, norm) ==> FirstSpelled(items, norm, kw)
  {
    if items != [] {
      var init := items[..|items| - 1];
      SanitizedFirstSpelling(init, maxKeywords, norm);
      var kept := Sanitized(init, maxKeywords, norm);
      assert forall j :: 0 <= j < |kept| ==> FirstSpelled(init, norm, kept[j]);
      var kw := norm(items[|items| - 1]);
      var r := Sanitized(items, maxKeywords, norm);
      forall k | 0 <= k < |r| ensures FirstSpelled(items, norm, r[k]) {
        if k < |kept| {
          assert FirstSpelled(init, norm, kept[k]);
          var m :| 0 <= m < |init| && FirstSpellingAt(init, norm, m, kept[k]);
          assert r[k] == kept[k];
          FirstSpellingExtends(init, items, norm, m, kept[k]);
        } else {
          var last := |items| - 1;
          assert r[k] == kw && kw != "" && Text.Lower(kw) !in LowerSet(kept);
          SanitizedComplete(init, maxKeywords, norm);
          assert FirstSpellingAt(items, norm, last, kw) by {
            forall m' | 0 <= m' < last ensures Text.Lower(norm(items[m'])) != Text.Lower(kw) {
              assert items[m'] == init[m'];
              if norm(items[m']) == "" {
                assert |Text.Lower(kw)| > 0;
              }
            }
          }
          assert FirstSpelled(items, norm, kw);
        }
      }
    }
  }

  /** Item `m` normalises to `kw`, and no earlier item has its lowered form. */
  ghost predicate FirstSpellingAt(items: seq<string>, norm: string -> string, m: nat, kw: string)
    requires m < |items|
  {
    norm(items[m]) == kw && forall m' :: 0 <= m' < m ==> Text.Lower(norm(items[m'])) != Text.Lower(kw)
  }

  ghost predicate FirstSpelled(items: seq<string>, norm: string -> string, kw: string) {
    exists m :: 0 <= m < |items| && FirstSpellingAt(items, norm, m, kw)
  }

  lemma {:induction false} FirstSpellingExtends(init: seq<string>, items: seq<string>, norm: string -> string, m: nat, kw: string)
    requires m < |init| && |init| < |items| && init == items[..|init|]
    requires FirstSpellingAt(init, norm, m, kw)
    ensures FirstSpellingAt(items, norm, m, kw)
  {
    assert items[m] == init[m];
    forall m' | 0 <= m' < m ensures Text.Lower(norm(items[m'])) != Text.Lower(kw) {
      assert items[m'] == init[m'];
    }
  }

  /** Until the cap stops the loop, every item with a non-empty normal form
      is represented: its lowered form is among the kept ones. */
  lemma {:induction false} SanitizedComplete(items: seq<string>, maxKeywords: int, norm: string -> string)
    ensures var r := Sanitized(items, maxKeywords, norm);
      !Stopped(r, maxKeywords) ==>
        forall m :: 0 <= m < |items| && norm(items[m]) != "" ==> Text.Lower(norm(items[m])) in LowerSet(r)
  {
    if items != [] {
      var init := items[..|items| - 1];
      SanitizedComplete(init, maxKeywords, norm);
      var kept := Sanitized(init, maxKeywords, norm);
      var kw := norm(items[|items| - 1]);
      var r := Sanitized(items, maxKeywords, norm);
      if !Stopped(r, maxKeywords) {
        assert !Stopped(kept, maxKeywords);
        forall m | 0 <= m < |items| && norm(items[m]) != "" ensures Text.Lower(norm(items[m])) in LowerSet(r) {
          if m < |init| {
            assert items[m] == init[m];
            var x := Text.Lower(norm(items[m]));
            var k :| k in kept && Text.Lower(k) == x;
            assert k in r;
          } else if r != kept {
            assert kw in r;
          }
        }
      }
    }
  }

  /** An empty answer, or one that is not a JSON array, gives no keyword. */
  lemma {:induction false} KeywordsFromResponseEmpty(respText: string, maxKeywords: int, parse: string -> Option<Json.Json>)
    requires respText == "" || TryParseJsonArray(respText, parse).None?
    ensures KeywordsFromResponse(respText, maxKeywords, parse) == []
  {
  }

  // ---------------------------------------------------------------- records and lines

  /** The prompt sent for a chunk text: a fixed instruction, then the text. */
  const PromptPrefix: string :=
    "Fournis " + "20 " + "mot-cl\U{E9}s, " + "chacun " + "au " + "format " + "'cha\U{EE}ne " + "de "
    + "caract\U{E8}res " + "d'un " + "tableau " + "JSON', " + "extraits " + "du " + "texte " + "suivant, "
    + "chacun " + "\U{E9}tant " + "compos\U{E9} " + "de " + "un " + "\U{E0} " + "trois " + "mots " + "qui "
    + "se " + "suivent " + "dans " + "ce " + "texte, " + "sans " + "modification, " + "et " + "s'il "
    + "y " + "a " + "un " + "article " + "au " + "d\U{E9}but " + "de " + "ces " + "trois " + "mots, "
    + "ne " + "l'affiche " + "pas " + ": "

  function BuildPrompt(text: string): (prompt: string)
    ensures Text.StartsWith(prompt, PromptPrefix) && Text.EndsWith(prompt, text)
  {
    PromptPrefix + text
  }

  /** `obj.get("text", "")`, through `str` when it is not a string. */
  function ChunkText(fields: Fields): string {
    match Json.Get(fields, "text")
    case None => ""
    case Some(v) => Json.PyStr(v)
  }

  /** The keywords `_process_obj` stores for a chunk text: none for a blank
      text, else those of the model's answer to the prompt. */
  function NewKeywords(text: string, prompt: string -> string, generate: string -> string, parse: string -> Option<Json.Json>): seq<string> {
    if Text.IsBlank(text) then [] else KeywordsFromResponse(generate(prompt(text)), 20, parse)
  }

  /** `_process_obj(obj, base_url)`: the new record and the prompts sent to
      the model (none for a blank text, else one). */
  function ProcessObj(fields: Fields, prompt: string -> string, generate: string -> string, parse: string -> Option<Json.Json>): (Fields, seq<string>) {
    var text := ChunkText(fields);
    (Json.Set(fields, "keywords", Json.StrArray(NewKeywords(text, prompt, generate, parse))),
     if Text.IsBlank(text) then [] else [prompt(text)])
  }

  /** At most 20 keywords, none empty, no two equal ignoring case; none
      at all for a blank text. */
  lemma {:induction false} NewKeywordsSpec(text: string, prompt: string -> string, generate: string -> string, parse: string -> Option<Json.Json>)
    ensures var kws := NewKeywords(text, prompt, generate, parse);
      && (Text.IsBlank(text) ==> kws == [])
      && |kws| <= 20
      && (forall k :: 0 <= k < |kws| ==> kws[k] != "")
      && (forall i, j :: 0 <= i < j < |kws| ==> Text.Lower(kws[i]) != Text.Lower(kws[j]))
  {
    if !Text.IsBlank(text) {
      var resp := generate(prompt(text));
      if resp != "" {
        var arr := TryParseJsonArray(resp, parse);
        SanitizedDistinct(if arr.Some? then arr.value else [], 20, NormalizeKeyword);
      }
    }
  }

  /** Only `keywords` changes, to the new keywords; it is appended when
      the record had none; every other field keeps its value and place. */
  lemma {:induction false} ProcessObjFields(fields: Fields, prompt: string -> string, generate: string -> string, parse: string -> Option<Json.Json>, other: string)
    requires other != "keywords"
    ensures var r := ProcessObj(fields, prompt, generate, parse).0;
      && Json.Get(r, other) == Json.Get(fields, other)
      && Json.Get(r, "keywords") == Some(Json.StrArray(NewKeywords(ChunkText(fields), prompt, generate, parse)))
      && Json.Keys(r) == Json.Keys(fields) + (if "keywords" in Json.Keys(fields) then [] else ["keywords"])
  {
    var value := Json.StrArray(NewKeywords(ChunkText(fields), prompt, generate, parse));
    Json.SetGet(fields, "keywords", value, other);
    Json.SetKeys(fields, "keywords", value);
  }

  /** One request, with the text at the end of the prompt, exactly when the
      text is not blank. */
  lemma {:induction false} ProcessObjPrompts(fields: Fields, prompt: string -> string, generate: string -> string, parse: string -> Option<Json.Json>)
    ensures var prompts := ProcessObj(fields, prompt, generate, parse).1;
      && (prompts == [] <==> Text.IsBlank(ChunkText(fields)))
      && |prompts| <= 1
      && forall k :: 0 <= k < |prompts| ==> prompts[k] == prompt(ChunkText(fields))
  {
  }

  /** What `main` does to a decoded object, given the model endpoint and
      the decoder. */
  function Processor(generate: string -> string, parse: string -> Option<Json.Json>): Fields -> (Fields, seq<string>) {
    fields => ProcessObj(fields, BuildPrompt, generate, parse)
  }

  /** The body of the line loop of `main`, for an object processor
      `process`: blank lines, undecodable lines and JSON values that are
      not objects are echoed; an object comes out processed. Also returns
      the prompts sent. */
  function RouteLine(line: string, process: Fields -> (Fields, seq<string>), parse: string -> Option<Json.Json>): (Json.OutLine, seq<string>) {
    if Text.IsBlank(line) then (Json.Verbatim(line), [])
    else
      match parse(line)
      case Some(JObj(fields)) => (Json.Record(process(fields).0), process(fields).1)
      case _ => (Json.Verbatim(line), [])
  }

  /** The output lines and the prompts of the whole stream. */
  function RouteAll(lines: seq<string>, process: Fields -> (Fields, seq<string>), parse: string -> Option<Json.Json>): (seq<Json.OutLine>, seq<string>) {
    if lines == [] then ([], [])
    else
      var before := RouteAll(lines[..|lines| - 1], process, parse);
      var last := RouteLine(lines[|lines| - 1], process, parse);
      (before.0 + [last.0], before.1 + last.1)
  }

  lemma {:induction false} RouteAllStep(lines: seq<string>, process: Fields -> (Fields, seq<string>), parse: string -> Option<Json.Json>, i: nat)
    requires i < |lines|
    ensures var before := RouteAll(lines[..i], process, parse);
      var last := RouteLine(lines[i], process, parse);
      RouteAll(lines[..i + 1], process, parse) == (before.0 + [last.0], before.1 + last.1)
  {
    assert lines[..i + 1][..i] == lines[..i];
  }

  /** The line loop of `main`. */
  method RouteLines(lines: seq<string>, generate: string -> string, parse: string -> Option<Json.Json>)
    returns (out: seq<Json.OutLine>, prompts: seq<string>)
    ensures (out, prompts) == RouteAll(lines, Processor(generate, parse), parse)
  {
    out, prompts := [], [];
    for i := 0 to |lines|
      invariant (out, prompts) == RouteAll(lines[..i], Processor(generate, parse), parse)
    {
      RouteAllStep(lines, Processor(generate, parse), parse, i);
      var line := lines[i];
      if Text.IsBlank(line) {
        assert prompts + [] == prompts;
        out := out + [Json.Verbatim(line)];
      } else {
        var parsed := parse(line);
        if parsed.Some? && parsed.value.JObj? {
          var processed := ProcessObj(parsed.value.fields, BuildPrompt, generate, parse);
          out := out + [Json.Record(processed.0)];
          prompts := prompts + processed.1;
        } else {
          assert prompts + [] == prompts;
          out := out + [Json.Verbatim(line)];
        }
      }
    }
    assert lines[..|lines|] == lines;
  }

  /** One output line per input line, in order, each the routing of its
      line. */
  lemma {:induction false} RouteAllSpec(lines: seq<string>, process: Fields -> (Fields, seq<string>), parse: string -> Option<Json.Json>)
    ensures var routed := RouteAll(lines, process, parse);
      && |routed.0| == |lines|
      && forall k :: 0 <= k < |lines| ==> routed.0[k] == RouteLine(lines[k], process, parse).0
  {
    if lines != [] {
      var init := lines[..|lines| - 1];
      RouteAllSpec(init, process, parse);
      forall k | 0 <= k < |init| ensures init[k] == lines[k] { }
    }
  }

  /** With `main`'s processor, at most one prompt per line. */
  lemma {:induction false} RouteAllPrompts(lines: seq<string>, generate: string -> string, parse: string -> Option<Json.Json>)
    ensures |RouteAll(lines, Processor(generate, parse), parse).1| <= |lines|
  {
    if lines != [] {
      RouteAllPrompts(lines[..|lines| - 1], generate, parse);
      RouteLinePrompts(lines[|lines| - 1], generate, parse);
    }
  }

  lemma {:induction false} RouteLinePrompts(line: string, generate: string -> string, parse: string -> Option<Json.Json>)
    ensures |RouteLine(line, Processor(generate, parse), parse).1| <= 1
  {
    if !Text.IsBlank(line) && parse(line).Some? && parse(line).value.JObj? {
      ProcessObjPrompts(parse(line).value.fields, BuildPrompt, generate, parse);
    }
  }

  /** A line is echoed exactly when it is blank or does not decode to an
      object; an object comes out as its processed record. */
  lemma {:induction false} RouteLineSpec(line: string, process: Fields -> (Fields, seq<string>), parse: string -> Option<Json.Json>)
    ensures var routed := RouteLine(line, process, parse);
      && (routed.0 == Json.Verbatim(line) <==> Text.IsBlank(line) || parse(line).None? || !parse(line).value.JObj?)
      && (routed.0.Record? ==> parse(line).Some? && parse(line).value.JObj?
                               && routed.0.fields == process(parse(line).value.fields).0)
  {
  }
}
