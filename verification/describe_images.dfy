/** The image pass of the advanced pipeline: every Markdown image whose
    target is a base64 `data:` URL (section 3 of RFC 2397) is replaced by
    a text description asked from a vision model, one request per
    distinct URL. */
module ImageDescriptions {
  import opened Wrappers
  import Text
  import Paths

  // ---------------------------------------------------------------- the image pattern

  const ImagePrefix := "data:image/"
  const Base64Marker := ";base64,"
  const DataScheme := "data:"
  const PngMime := "image/png"
  const PngPrefix := DataScheme + PngMime + Base64Marker

  /** `lit` occurs in `s` at position `i`. */
  predicate HasAt(s: string, i: nat, lit: string) {
    i + |lit| <= |s| && s[i..i + |lit|] == lit
  }

  /** The character class `[a-zA-Z0-9.+-]` of the MIME subtype. */
  predicate IsSubtypeChar(c: char) {
    ('a' <= c <= 'z') || ('A' <= c <= 'Z') || ('0' <= c <= '9') || c == '.' || c == '+' || c == '-'
  }

  /** The first position at or after `i` holding `c`, if any. */
  function FindFrom(s: string, i: nat, c: char): (r: Option<nat>)
    requires i <= |s|
    ensures r.None? ==> forall k :: i <= k < |s| ==> s[k] != c
    ensures r.Some? ==> i <= r.value < |s| && s[r.value] == c
    ensures r.Some? ==> forall k :: i <= k < r.value ==> s[k] != c
    decreases |s| - i
  {
    if i == |s| then None
    else if s[i] == c then Some(i)
    else FindFrom(s, i + 1, c)
  }

  /** The end of the longest run of subtype characters starting at `i`. */
  function SubtypeRunEnd(s: string, i: nat): (r: nat)
    requires i <= |s|
    ensures i <= r <= |s|
    ensures forall k :: i <= k < r ==> IsSubtypeChar(s[k])
    ensures r == |s| || !IsSubtypeChar(s[r])
    decreases |s| - i
  {
    if i < |s| && IsSubtypeChar(s[i]) then SubtypeRunEnd(s, i + 1) else i
  }

  /** What the `url` group of the pattern accepts, `)` aside (the match
      ends the URL at the first `)`):
      `data:image/<subtype>;base64,<payload>` with a non-empty subtype of
      `[a-zA-Z0-9.+-]` and a non-empty payload. */
  predicate IsDataImageUrl(url: string) {
    && HasAt(url, 0, ImagePrefix)
    && var r := SubtypeRunEnd(url, |ImagePrefix|);
    && r > |ImagePrefix| && HasAt(url, r, Base64Marker) && |url| > r + |Base64Marker|
  }

  /** One match of the pattern: the alternative text, the URL and the
      position just after the closing parenthesis. */
  datatype ImageRef = ImageRef(alt: string, url: string, end: nat)

  /** The Markdown text of an image. */
  function ImageMarkdown(alt: string, url: string): string {
    "![" + alt + "](" + url + ")"
  }

  /** The pattern `![alt](url)` tried at position `i`: `alt` runs to the
      first `]`, the URL to the first `)` after the opening parenthesis. */
  function MatchAt(s: string, i: nat): (r: Option<ImageRef>)
    requires i <= |s|
    ensures r.Some? ==> i < r.value.end <= |s|
  {
    if i + 1 < |s| && s[i] == '!' && s[i + 1] == '[' then
      match FindFrom(s, i + 2, ']')
      case None => None
      case Some(j) => MatchTarget(s, i, j)
    else None
  }

  /** The rest of the pattern after the `]` at `j`: `(url)`. */
  function MatchTarget(s: string, i: nat, j: nat): (r: Option<ImageRef>)
    requires i + 2 <= j < |s|
    ensures r.Some? ==> j < r.value.end <= |s|
  {
    if j + 1 < |s| && s[j + 1] == '(' then
      match FindFrom(s, j + 2, ')')
      case None => None
      case Some(k) =>
        if IsDataImageUrl(s[j + 2..k]) then Some(ImageRef(s[i + 2..j], s[j + 2..k], k + 1)) else None
    else None
  }

  /** The Markdown text of an image, character by character. */
  lemma ImageMarkdownChars(alt: string, url: string)
    ensures var img := ImageMarkdown(alt, url);
      && |img| == |alt| + |url| + 5
      && img[0] == '!' && img[1] == '[' && img[2 + |alt|] == ']' && img[3 + |alt|] == '('
      && img[|img| - 1] == ')'
      && img[2..2 + |alt|] == alt && img[4 + |alt|..4 + |alt| + |url|] == url
  {
  }

  /** A slice laid out as an image is the Markdown text of that image. */
  lemma ImageSlice(s: string, i: nat, j: nat, k: nat)
    requires i + 2 <= j && j + 2 <= k < |s|
    requires s[i] == '!' && s[i + 1] == '[' && s[j] == ']' && s[j + 1] == '(' && s[k] == ')'
    ensures s[i..k + 1] == ImageMarkdown(s[i + 2..j], s[j + 2..k])
  {
    var alt := s[i + 2..j];
    var url := s[j + 2..k];
    ImageMarkdownChars(alt, url);
    var img := ImageMarkdown(alt, url);
    assert forall t :: 0 <= t < |img| ==> s[i..k + 1][t] == img[t] by {
      forall t | 0 <= t < |img|
        ensures s[i..k + 1][t] == img[t]
      {
        if 2 <= t < 2 + |alt| {
          assert img[t] == img[2..2 + |alt|][t - 2];
        } else if 4 + |alt| <= t < 4 + |alt| + |url| {
          assert img[t] == img[4 + |alt|..4 + |alt| + |url|][t - 4 - |alt|];
        }
      }
    }
  }

  /** A match is exactly the Markdown text of an image whose alternative
      text holds no `]` and whose target is a data image URL without `)`. */
  lemma MatchShape(s: string, i: nat)
    requires i <= |s| && MatchAt(s, i).Some?
    ensures s[i..MatchAt(s, i).value.end] == ImageMarkdown(MatchAt(s, i).value.alt, MatchAt(s, i).value.url)
    ensures ']' !in MatchAt(s, i).value.alt && ')' !in MatchAt(s, i).value.url
    ensures IsDataImageUrl(MatchAt(s, i).value.url)
  {
    match FindFrom(s, i + 2, ']')
    case Some(j) =>
      assert MatchAt(s, i) == MatchTarget(s, i, j);
      TargetShape(s, i, j);
  }

  lemma TargetShape(s: string, i: nat, j: nat)
    requires i + 2 <= j < |s| && s[i] == '!' && s[i + 1] == '[' && s[j] == ']'
    requires forall t :: i + 2 <= t < j ==> s[t] != ']'
    requires MatchTarget(s, i, j).Some?
    ensures s[i..MatchTarget(s, i, j).value.end] == ImageMarkdown(MatchTarget(s, i, j).value.alt, MatchTarget(s, i, j).value.url)
    ensures ']' !in MatchTarget(s, i, j).value.alt && ')' !in MatchTarget(s, i, j).value.url
    ensures IsDataImageUrl(MatchTarget(s, i, j).value.url)
  {
    match FindFrom(s, j + 2, ')')
    case Some(k) =>
      ImageSlice(s, i, j, k);
  }

  /** Conversely, the Markdown text of such an image, wherever it stands,
      is matched there with its own alternative text and URL. */
  lemma MatchImage(s: string, i: nat, alt: string, url: string)
    requires ']' !in alt && ')' !in url && IsDataImageUrl(url)
    requires HasAt(s, i, ImageMarkdown(alt, url))
    ensures MatchAt(s, i) == Some(ImageRef(alt, url, i + |ImageMarkdown(alt, url)|))
  {
    ImageLayout(s, i, alt, url);
    var j := i + 2 + |alt|;
    var k := j + 2 + |url|;
    NotInSlice(s, i + 2, j, ']');
    FindFirst(s, i + 2, ']', j);
    NotInSlice(s, j + 2, k, ')');
    FindFirst(s, j + 2, ')', k);
    MatchAtOf(s, i, j, k);
  }

  /** Where the Markdown text of an image stands, its pieces stand. */
  lemma ImageLayout(s: string, i: nat, alt: string, url: string)
    requires HasAt(s, i, ImageMarkdown(alt, url))
    ensures var j := i + 2 + |alt|; var k := j + 2 + |url|;
      && k < |s| && s[i] == '!' && s[i + 1] == '[' && s[j] == ']' && s[j + 1] == '(' && s[k] == ')'
      && s[i + 2..j] == alt && s[j + 2..k] == url && k + 1 == i + |ImageMarkdown(alt, url)|
  {
    var img := ImageMarkdown(alt, url);
    ImageMarkdownChars(alt, url);
    var j := i + 2 + |alt|;
    var k := j + 2 + |url|;
    var w := s[i..i + |img|];
    assert w == img;
    assert s[i] == w[0] && s[i + 1] == w[1] && s[j] == w[2 + |alt|] && s[j + 1] == w[3 + |alt|];
    assert s[k] == w[|img| - 1];
    SliceOfSlice(s, i, i + |img|, 2, 2 + |alt|);
    SliceOfSlice(s, i, i + |img|, 4 + |alt|, 4 + |alt| + |url|);
  }

  lemma SliceOfSlice(s: string, a: nat, b: nat, c: nat, d: nat)
    requires a <= b <= |s| && c <= d <= b - a
    ensures s[a..b][c..d] == s[a + c..a + d]
  {
    forall t | 0 <= t < d - c
      ensures s[a..b][c..d][t] == s[a + c..a + d][t]
    {
      assert s[a..b][c..d][t] == s[a + c + t];
    }
  }

  lemma NotInSlice(s: string, a: nat, b: nat, c: char)
    requires a <= b <= |s| && c !in s[a..b]
    ensures forall t :: a <= t < b ==> s[t] != c
  {
    forall t | a <= t < b
      ensures s[t] != c
    {
      assert s[t] == s[a..b][t - a];
    }
  }

  /** The pattern matches at `i` once its pieces are found. */
  lemma MatchAtOf(s: string, i: nat, j: nat, k: nat)
    requires i + 1 < |s| && s[i] == '!' && s[i + 1] == '['
    requires i + 2 <= |s| && FindFrom(s, i + 2, ']') == Some(j)
    requires j + 1 < |s| && s[j + 1] == '('
    requires j + 2 <= |s| && FindFrom(s, j + 2, ')') == Some(k)
    requires IsDataImageUrl(s[j + 2..k])
    ensures MatchAt(s, i) == Some(ImageRef(s[i + 2..j], s[j + 2..k], k + 1))
  {
    assert MatchAt(s, i) == MatchTarget(s, i, j);
    TargetOf(s, i, j, k);
  }

  lemma TargetOf(s: string, i: nat, j: nat, k: nat)
    requires i + 2 <= j && j + 1 < |s| && s[j + 1] == '('
    requires j + 2 <= |s| && FindFrom(s, j + 2, ')') == Some(k)
    requires IsDataImageUrl(s[j + 2..k])
    ensures MatchTarget(s, i, j) == Some(ImageRef(s[i + 2..j], s[j + 2..k], k + 1))
  {
  }

  /** `FindFrom` finds the first occurrence. */
  lemma FindFirst(s: string, i: nat, c: char, k: nat)
    requires i <= k < |s| && s[k] == c && forall t :: i <= t < k ==> s[t] != c
    ensures FindFrom(s, i, c) == Some(k)
  {
  }

  /** A data image URL built from a subtype and a payload satisfies the
      pattern. */
  lemma DataImageUrlOf(subtype: string, payload: string)
    requires subtype != "" && forall k :: 0 <= k < |subtype| ==> IsSubtypeChar(subtype[k])
    requires payload != ""
    ensures IsDataImageUrl(ImagePrefix + subtype + Base64Marker + payload)
  {
    var url := ImagePrefix + subtype + Base64Marker + payload;
    var p := |ImagePrefix|;
    var r := p + |subtype|;
    assert url[..p] == ImagePrefix;
    assert url[r..r + |Base64Marker|] == Base64Marker;
    assert forall k :: p <= k < r ==> url[k] == subtype[k - p];
    assert !IsSubtypeChar(url[r]);
    RunEndAt(url, p, r);
    assert url == ImagePrefix + subtype + (Base64Marker + payload);
  }

  lemma RunEndAt(s: string, i: nat, r: nat)
    requires i <= r < |s| && !IsSubtypeChar(s[r]) && forall k :: i <= k < r ==> IsSubtypeChar(s[k])
    ensures SubtypeRunEnd(s, i) == r
  {
  }

  // ---------------------------------------------------------------- the substitution

  /** The URLs of the successive matches from position `i`, left to right
      and without overlap, as `re.sub` finds them. */
  function Urls(s: string, i: nat): seq<string>
    requires i <= |s|
    decreases |s| - i
  {
    if i == |s| then []
    else match MatchAt(s, i)
      case Some(m) => [m.url] + Urls(s, m.end)
      case None => Urls(s, i + 1)
  }

  /** The text from position `i` with every match replaced by the text
      given for its URL and everything else copied. */
  function ReplaceFrom(s: string, i: nat, text: map<string, string>): string
    requires i <= |s| && forall u :: u in Urls(s, i) ==> u in text
    decreases |s| - i
  {
    if i == |s| then ""
    else match MatchAt(s, i)
      case Some(m) => text[m.url] + ReplaceFrom(s, m.end, text)
      case None => [s[i]] + ReplaceFrom(s, i + 1, text)
  }

  /** The state of `convert_markdown_images`: the text produced so far,
      the cache from URL to description, and the URLs handed to the
      describer, in order. */
  datatype Pass = Pass(out: string, cache: map<string, string>, calls: seq<string>)

  /** One match: the cached description, or a new one from the describer,
      whose `n`-th call (from 0) answers `describe(n, url)`. */
  function Visit(st: Pass, url: string, describe: (nat, string) -> string): Pass {
    if url in st.cache then Pass(st.out + st.cache[url], st.cache, st.calls)
    else
      var d := describe(|st.calls|, url);
      Pass(st.out + d, st.cache[url := d], st.calls + [url])
  }

  /** `re.sub` with the caching replacement function, from position `i`. */
  function SubFrom(s: string, i: nat, st: Pass, describe: (nat, string) -> string): Pass
    requires i <= |s|
    decreases |s| - i
  {
    if i == |s| then st
    else match MatchAt(s, i)
      case Some(m) => SubFrom(s, m.end, Visit(st, m.url, describe), describe)
      case None => SubFrom(s, i + 1, Pass(st.out + [s[i]], st.cache, st.calls), describe)
  }

  /** `convert_markdown_images(md_text, client)` */
  function Converted(md: string, describe: (nat, string) -> string): Pass {
    SubFrom(md, 0, Pass("", map[], []), describe)
  }

  /** The describer was called at most once per URL, the cache holds
      exactly the URLs it was called with, and each holds the answer of
      its call. */
  ghost predicate Good(st: Pass, describe: (nat, string) -> string) {
    && (forall a, b :: 0 <= a < b < |st.calls| ==> st.calls[a] != st.calls[b])
    && (forall u :: u in st.cache <==> u in st.calls)
    && (forall k :: 0 <= k < |st.calls| ==> st.cache[st.calls[k]] == describe(k, st.calls[k]))
  }

  lemma VisitGood(st: Pass, url: string, describe: (nat, string) -> string)
    requires Good(st, describe)
    ensures Good(Visit(st, url, describe), describe)
    ensures forall u :: u in Visit(st, url, describe).calls <==> u in st.calls || u == url
  {
    if url !in st.cache {
      var r := Visit(st, url, describe);
      forall k | 0 <= k < |r.calls|
        ensures r.cache[r.calls[k]] == describe(k, r.calls[k])
      {
        if k < |st.calls| {
          assert st.calls[k] in st.calls;
        }
      }
    }
  }

  /** The substitution from position `i` keeps the cache honest and adds
      exactly the URLs matched from there to the calls. */
  lemma {:induction false} SubFromGood(s: string, i: nat, st: Pass, describe: (nat, string) -> string)
    requires i <= |s| && Good(st, describe)
    ensures Good(SubFrom(s, i, st, describe), describe)
    ensures forall u :: u in SubFrom(s, i, st, describe).calls <==> u in st.calls || u in Urls(s, i)
    decreases |s| - i
  {
    if i < |s| {
      match MatchAt(s, i)
      case Some(m) =>
        var next := Visit(st, m.url, describe);
        VisitGood(st, m.url, describe);
        SubFromGood(s, m.end, next, describe);
        assert Urls(s, i) == [m.url] + Urls(s, m.end);
      case None =>
        SubFromGood(s, i + 1, Pass(st.out + [s[i]], st.cache, st.calls), describe);
    }
  }

  /** A cached description is never replaced. */
  predicate CacheGrows(r: Pass, st: Pass) {
    forall u :: u in st.cache ==> u in r.cache && r.cache[u] == st.cache[u]
  }

  /** The substitution from position `i` keeps every cached description
      and caches every URL matched from there. */
  lemma {:induction false} SubFromGrows(s: string, i: nat, st: Pass, describe: (nat, string) -> string)
    requires i <= |s|
    ensures CacheGrows(SubFrom(s, i, st, describe), st)
    ensures forall u :: u in Urls(s, i) ==> u in SubFrom(s, i, st, describe).cache
    decreases |s| - i
  {
    if i < |s| {
      match MatchAt(s, i)
      case Some(m) =>
        var next := Visit(st, m.url, describe);
        SubFromGrows(s, m.end, next, describe);
        assert Urls(s, i) == [m.url] + Urls(s, m.end);
      case None =>
        SubFromGrows(s, i + 1, Pass(st.out + [s[i]], st.cache, st.calls), describe);
    }
  }

  /** The substitution from position `i` appends the text with every match
      replaced by its cached description. */
  lemma {:induction false} SubFromOut(s: string, i: nat, st: Pass, describe: (nat, string) -> string)
    requires i <= |s|
    ensures forall u :: u in Urls(s, i) ==> u in SubFrom(s, i, st, describe).cache
    ensures SubFrom(s, i, st, describe).out == st.out + ReplaceFrom(s, i, SubFrom(s, i, st, describe).cache)
    decreases |s| - i
  {
    SubFromGrows(s, i, st, describe);
    if i < |s| {
      var r := SubFrom(s, i, st, describe);
      match MatchAt(s, i)
      case Some(m) =>
        var next := Visit(st, m.url, describe);
        SubFromGrows(s, m.end, next, describe);
        SubFromOut(s, m.end, next, describe);
        var d := r.cache[m.url];
        var tail := ReplaceFrom(s, m.end, r.cache);
        assert ReplaceFrom(s, i, r.cache) == d + tail;
        Regroup(st.out, d, tail, next.out, r.out);
      case None =>
        var next := Pass(st.out + [s[i]], st.cache, st.calls);
        SubFromOut(s, i + 1, next, describe);
        var tail := ReplaceFrom(s, i + 1, r.cache);
        assert ReplaceFrom(s, i, r.cache) == [s[i]] + tail;
        Regroup(st.out, [s[i]], tail, next.out, r.out);
    } else {
      assert st.out + "" == st.out;
    }
  }

  lemma Regroup(a: string, b: string, c: string, x: string, y: string)
    requires x == a + b && y == x + c
    ensures y == a + (b + c)
  {
  }

  /** What `convert_markdown_images` promises: the describer is called at
      most once per distinct URL and for exactly the URLs of the matches;
      each match is replaced by the description of its URL, so equal URLs
      get identical text; all other text is copied. */
  lemma ConvertedSpec(md: string, describe: (nat, string) -> string)
    ensures var r := Converted(md, describe);
      && (forall a, b :: 0 <= a < b < |r.calls| ==> r.calls[a] != r.calls[b])
      && (forall u :: u in r.calls <==> u in Urls(md, 0))
      && (forall k :: 0 <= k < |r.calls| ==> r.calls[k] in r.cache && r.cache[r.calls[k]] == describe(k, r.calls[k]))
      && (forall u :: u in Urls(md, 0) ==> u in r.cache)
      && r.out == ReplaceFrom(md, 0, r.cache)
  {
    SubFromGood(md, 0, Pass("", map[], []), describe);
    SubFromOut(md, 0, Pass("", map[], []), describe);
  }

  /** Where no image matches, the text is copied unchanged. */
  lemma {:induction false} NoMatchCopies(s: string, i: nat, text: map<string, string>)
    requires i <= |s| && Urls(s, i) == []
    ensures ReplaceFrom(s, i, text) == s[i..]
    decreases |s| - i
  {
    if i < |s| {
      assert MatchAt(s, i).None?;
      NoMatchCopies(s, i + 1, text);
      assert s[i..] == [s[i]] + s[i + 1..];
    }
  }

  lemma NothingIn(xs: seq<string>, ys: seq<string>)
    requires ys == [] && forall u :: u in xs ==> u in ys
    ensures xs == []
  {
    if xs != [] {
      FirstIn(xs);
      assert false;
    }
  }

  lemma FirstIn(xs: seq<string>)
    requires xs != []
    ensures xs[0] in xs
  {
  }

  /** A text without a data image is returned as it is, and the
      describer is never called. */
  lemma NoImagesUnchanged(md: string, describe: (nat, string) -> string)
    requires Urls(md, 0) == []
    ensures Converted(md, describe).out == md && Converted(md, describe).calls == []
  {
    ConvertedSpec(md, describe);
    var r := Converted(md, describe);
    NoMatchCopies(md, 0, r.cache);
    NothingIn(r.calls, Urls(md, 0));
  }

  // ---------------------------------------------------------------- conversion to PNG

  /** The image converters the source delegates to: `emf` for EMF data
      (Inkscape or ImageMagick; `""` when they fail or are missing) and
      `pillow` for the other formats (`None` when Pillow is missing or
      raises). Both take the base64 payload, whose decoding may itself
      fail, and give the PNG's base64. */
  datatype Converter = Converter(emf: string -> string, pillow: string -> Option<string>)

  /** The regular expression `^data:(?P<mime>[^;]+);base64,(?P<b64>.+)$`
      applied to a URL that starts with `data:`. */
  function ParseDataUrl(url: string): (r: Option<(string, string)>)
    ensures r.Some? ==> r.value.0 != "" && ';' !in r.value.0 && r.value.1 != ""
    ensures r.Some? ==> url == DataScheme + r.value.0 + Base64Marker + r.value.1
  {
    if HasAt(url, 0, DataScheme) then
      match FindFrom(url, 5, ';')
      case None => None
      case Some(p) =>
        if p > 5 && HasAt(url, p, Base64Marker) && |url| > p + |Base64Marker| then
          assert url == url[..5] + url[5..p] + url[p..p + |Base64Marker|] + url[p + |Base64Marker|..];
          Some((url[5..p], url[p + |Base64Marker|..]))
        else None
    else None
  }

  /** Any MIME type without `;` and any non-empty payload are read back. */
  lemma ParseDataUrlRoundTrip(mime: string, b64: string)
    requires mime != "" && ';' !in mime && b64 != ""
    ensures ParseDataUrl(DataScheme + mime + Base64Marker + b64) == Some((mime, b64))
  {
    var url := DataScheme + mime + Base64Marker + b64;
    var p := 5 + |mime|;
    assert url[..5] == DataScheme;
    assert url[p..p + |Base64Marker|] == Base64Marker;
    assert forall t :: 5 <= t < p ==> url[t] == mime[t - 5];
    FindFirst(url, 5, ';', p);
    assert url[5..p] == mime && url[p + |Base64Marker|..] == b64;
  }

  predicate IsEmf(mime: string) {
    mime == "image/x-emf" || mime == "image/emf"
  }

  /** `data_url_to_png_data_url` */
  function ToPngUrl(url: string, conv: Converter): string {
    if !HasAt(url, 0, DataScheme) then url
    else match ParseDataUrl(url)
      case None => url
      case Some((mime, b64)) =>
        var m := Text.Lower(mime);
        if m == PngMime then url
        else if IsEmf(m) then
          var png := conv.emf(b64);
          if png == "" then url else PngPrefix + png
        else match conv.pillow(b64)
          case None => url
          case Some(png) => PngPrefix + png
  }

  /** The conversion gives back its input or a PNG data URL. */
  lemma ToPngShape(url: string, conv: Converter) returns (png: string)
    ensures ToPngUrl(url, conv) == url || ToPngUrl(url, conv) == PngPrefix + png
  {
    png := "";
    if HasAt(url, 0, DataScheme) {
      match ParseDataUrl(url)
      case None =>
      case Some((mime, b64)) =>
        var m := Text.Lower(mime);
        if m == PngMime {
        } else if IsEmf(m) {
          png := conv.emf(b64);
        } else if conv.pillow(b64).Some? {
          png := conv.pillow(b64).value;
        }
    }
  }

  /** A PNG data URL is returned as it is, whatever the case of its MIME
      type. */
  lemma PngKept(mime: string, b64: string, conv: Converter)
    requires Text.Lower(mime) == PngMime && b64 != ""
    ensures ToPngUrl(DataScheme + mime + Base64Marker + b64, conv) == DataScheme + mime + Base64Marker + b64
  {
    var url := DataScheme + mime + Base64Marker + b64;
    ParseDataUrlRoundTrip(mime, b64);
    assert url[..5] == DataScheme;
  }

  /** Converting twice is converting once: a converted URL is a PNG data
      URL and is kept. */
  lemma ToPngIdempotent(url: string, conv: Converter)
    ensures ToPngUrl(ToPngUrl(url, conv), conv) == ToPngUrl(url, conv)
  {
    var png := ToPngShape(url, conv);
    if ToPngUrl(url, conv) != url {
      PngUrlKept(png, conv);
    }
  }

  lemma PngUrlKept(png: string, conv: Converter)
    ensures ToPngUrl(PngPrefix + png, conv) == PngPrefix + png
  {
    if png != "" {
      PngLower();
      PngKept(PngMime, png, conv);
    } else {
      assert PngPrefix + png == PngPrefix;
      PngPrefixNotParsed();
    }
  }

  lemma PngLower()
    ensures Text.Lower(PngMime) == PngMime
  {
  }

  /** The prefix alone has no payload: it is not a data URL the pattern
      accepts, and is kept. */
  lemma PngPrefixNotParsed()
    ensures ParseDataUrl(PngPrefix).None?
  {
  }

  // ---------------------------------------------------------------- the model's answer

  /** What the chat completion gave: an answer (its content may be
      `None`), no choices at all, or an exception with its message. */
  datatype Reply = Answer(content: Option<string>) | NoChoices | Raised(error: string)

  const CommentOpen := "<!--"
  const CommentClose := "-->"

  /** An HTML comment around `body`. */
  function Comment(body: string): string {
    CommentOpen + body + CommentClose
  }

  const EmptyReplyComment := Comment(" Réponse vide du modèle pour cette image ")

  function ErrorComment(error: string): string {
    Comment(" Erreur lors de la description de l'image: " + error + " ")
  }

  /** The text `describe_image_with_openai` returns for a reply. */
  function DescribeReply(reply: Reply): string {
    match reply
    case Raised(e) => ErrorComment(e)
    case NoChoices => EmptyReplyComment
    case Answer(None) => EmptyReplyComment
    case Answer(Some(t)) => if Text.IsBlank(t) then EmptyReplyComment else Text.Strip(t)
  }

  /** The description put in place of an image is never blank and has no
      whitespace at either end; it is the model's text exactly when the
      model answered with something other than whitespace. */
  lemma DescribeReplySpec(reply: Reply)
    ensures DescribeReply(reply) != "" && Text.Stripped(DescribeReply(reply))
    ensures (reply.Answer? && reply.content.Some? && !Text.IsBlank(reply.content.value))
      ==> DescribeReply(reply) == Text.Strip(reply.content.value)
    ensures reply.Raised? ==> HasAt(DescribeReply(reply), 0, CommentOpen)
  {
    match reply
    case Raised(e) =>
      CommentEnds(" Erreur lors de la description de l'image: " + e + " ");
    case NoChoices =>
      CommentEnds(" Réponse vide du modèle pour cette image ");
    case Answer(None) =>
      CommentEnds(" Réponse vide du modèle pour cette image ");
    case Answer(Some(t)) =>
      if Text.IsBlank(t) {
        CommentEnds(" Réponse vide du modèle pour cette image ");
      } else {
        Text.StripSpec(t);
      }
  }

  /** A comment starts with `<` and ends with `>`. */
  lemma CommentEnds(body: string)
    ensures HasAt(Comment(body), 0, CommentOpen) && Comment(body) != "" && Text.Stripped(Comment(body))
  {
    var c := Comment(body);
    assert c[..|CommentOpen|] == CommentOpen;
    assert c[0] == CommentOpen[0] && c[|c| - 1] == CommentClose[|CommentClose| - 1];
  }

  /** The describer the source uses: the `n`-th request sends the URL
      converted to PNG, and its reply becomes the description. */
  function Describer(ask: (nat, string) -> Reply, conv: Converter): (nat, string) -> string {
    (n: nat, url: string) => DescribeReply(ask(n, ToPngUrl(url, conv)))
  }

  /** `convert_markdown_images`: the `re.sub` scan with the cache held in
      a dictionary. */
  method ConvertMarkdownImages(md: string, ask: (nat, string) -> Reply, conv: Converter)
    returns (out: string, calls: seq<string>)
    ensures out == Converted(md, Describer(ask, conv)).out
    ensures calls == Converted(md, Describer(ask, conv)).calls
  {
    var describe := Describer(ask, conv);
    var cache: map<string, string> := map[];
    out, calls := "", [];
    var i := 0;
    while i < |md|
      invariant i <= |md|
      invariant SubFrom(md, i, Pass(out, cache, calls), describe) == Converted(md, describe)
      decreases |md| - i
    {
      match MatchAt(md, i)
      case Some(m) =>
        if m.url in cache {
          out := out + cache[m.url];
        } else {
          var d := describe(|calls|, m.url);
          cache := cache[m.url := d];
          calls := calls + [m.url];
          out := out + d;
        }
        i := m.end;
      case None =>
        out := out + [md[i]];
        i := i + 1;
    }
  }

  // ---------------------------------------------------------------- the output file

  /** `output_path_for`: the input path without its extension, then
      `-converted.md`. */
  function OutputPathFor(path: string): string {
    Paths.SplitExt(path).0 + "-converted.md"
  }

  /** The output path keeps everything but the extension and never names
      the input file itself. */
  lemma OutputPathSpec(path: string)
    ensures Text.EndsWith(OutputPathFor(path), "-converted.md")
    ensures Text.StartsWith(path, OutputPathFor(path)[..|OutputPathFor(path)| - 13])
    ensures OutputPathFor(path) != path
  {
    var (base, ext) := Paths.SplitExt(path);
    var r := OutputPathFor(path);
    assert r[..|r| - 13] == base;
    assert path[..|base|] == base;
  }
}
