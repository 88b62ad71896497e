/** The deepest-heading prefixer: every chunk record of an NDJSON file gets
    its deepest heading title, a blank line, then its own text; blank
    lines and lines that are not JSON pass through untouched. Parsing a
    line is a parameter of the model, serialising a record is left
    abstract (the output holds the record itself). */
module TitlePrefixer {
  import opened Wrappers
  import Text
  import Json

  type Fields = seq<(string, Json.Json)>

  const Delimiter: string := "\n\n"

  // ---------------------------------------------------------------- deepest heading

  /** `int(key[1:])` for a key that starts with `h`; `None` where the code
      skips the key (no `h`, or `int` raises). */
  function KeyLevel(key: string): Option<int> {
    if |key| >= 1 && key[0] == 'h' then Text.ParseInt(key[1..]) else None
  }

  /** An entry that competes: a level from 1 to 6 and a string value that
      is not blank. */
  predicate Qualifies(entry: (string, Json.Json)) {
    var level := KeyLevel(entry.0);
    level.Some? && 1 <= level.value <= 6 && entry.1.JStr? && !Text.IsBlank(entry.1.s)
  }

  /** The level an entry competes with, `-1` (the initial `best_level`)
      when it does not compete. */
  function EntryLevel(entry: (string, Json.Json)): (level: int)
    ensures level == -1 || 1 <= level <= 6
    ensures level != -1 <==> Qualifies(entry)
  {
    if Qualifies(entry) then KeyLevel(entry.0).value else -1
  }

  /** The running `(best_level, best)` of the loop, for any level function:
      an entry replaces the best only with a strictly larger level, so an
      entry at level `-1` never wins. */
  function RunningMax<T>(xs: seq<T>, level: T -> int): (r: (int, Option<T>))
    ensures r.1.None? ==> r.0 == -1
    ensures r.1.Some? ==> r.0 > -1 && level(r.1.value) == r.0
  {
    if xs == [] then (-1, None)
    else
      var best := RunningMax(xs[..|xs| - 1], level);
      var x := xs[|xs| - 1];
      if level(x) > best.0 then (level(x), Some(x)) else best
  }

  /** The running maximum is the first entry of the largest level: none
      exactly when no level exceeds `-1`, otherwise an entry whose level
      no entry exceeds and no earlier entry reaches. */
  lemma {:induction false} RunningMaxSpec<T>(xs: seq<T>, level: T -> int)
    ensures var r := RunningMax(xs, level);
      && (r.1.None? <==> forall k :: 0 <= k < |xs| ==> level(xs[k]) <= -1)
      && (r.1.Some? ==> exists k :: 0 <= k < |xs| && FirstMaxAt(xs, level, k) && xs[k] == r.1.value && level(xs[k]) == r.0)
  {
    if xs != [] {
      var init := xs[..|xs| - 1];
      var x := xs[|xs| - 1];
      RunningMaxSpec(init, level);
      var best := RunningMax(init, level);
      if level(x) > best.0 {
        assert FirstMaxAt(xs, level, |xs| - 1) by {
          forall j | 0 <= j < |xs| - 1 ensures level(xs[j]) < level(x) {
            assert xs[j] == init[j];
            if best.1.Some? {
              var k :| 0 <= k < |init| && FirstMaxAt(init, level, k) && level(init[k]) == best.0;
            }
          }
        }
      } else if best.1.Some? {
        var k :| 0 <= k < |init| && FirstMaxAt(init, level, k) && init[k] == best.1.value && level(init[k]) == best.0;
        assert xs[k] == init[k];
        assert FirstMaxAt(xs, level, k) by {
          forall j | 0 <= j < |xs| ensures level(xs[j]) <= level(xs[k]) {
            if j < |init| {
              assert xs[j] == init[j];
            }
          }
          forall j | 0 <= j < k ensures level(xs[j]) < level(xs[k]) {
            assert xs[j] == init[j];
          }
        }
      } else {
        forall j | 0 <= j < |xs| ensures level(xs[j]) <= -1 {
          if j < |init| {
            assert xs[j] == init[j];
          }
        }
      }
    }
  }

  /** Entry `k` has the largest level, and no earlier entry has it. */
  ghost predicate FirstMaxAt<T>(xs: seq<T>, level: T -> int, k: nat)
    requires k < |xs|
  {
    && (forall j :: 0 <= j < |xs| ==> level(xs[j]) <= level(xs[k]))
    && (forall j :: 0 <= j < k ==> level(xs[j]) < level(xs[k]))
  }

  /** The stripped value of the winning entry, if any. */
  function WinnerText(fields: Fields): Option<string> {
    var winner := RunningMax(fields, EntryLevel).1;
    if winner.Some? then Some(Text.Strip(winner.value.1.s)) else None
  }

  /** `_deepest_heading_text(headings)` */
  function DeepestHeadingText(headings: Json.Json): Option<string> {
    match headings
    case JObj(fields) => WinnerText(fields)
    case _ => None
  }

  /** The loop of `_deepest_heading_text`. */
  method DeepestHeading(headings: Json.Json) returns (bestText: Option<string>)
    ensures bestText == DeepestHeadingText(headings)
  {
    if !headings.JObj? {
      return None;
    }
    var fields := headings.fields;
    var bestLevel := -1;
    bestText := None;
    for i := 0 to |fields|
      invariant bestLevel == RunningMax(fields[..i], EntryLevel).0
      invariant bestText == WinnerText(fields[..i])
    {
      RunningMaxStep(fields, EntryLevel, i);
      var (key, value) := fields[i];
      var level := KeyLevel(key);
      if level.Some? && 1 <= level.value <= 6 && value.JStr? && !Text.IsBlank(value.s) {
        if level.value > bestLevel {
          bestLevel := level.value;
          bestText := Some(Text.Strip(value.s));
        }
      }
    }
    assert fields[..|fields|] == fields;
  }

  /** One more entry: it wins exactly when its level is larger. */
  lemma {:induction false} RunningMaxStep<T>(xs: seq<T>, level: T -> int, i: nat)
    requires i < |xs|
    ensures var best := RunningMax(xs[..i], level);
      RunningMax(xs[..i + 1], level) == if level(xs[i]) > best.0 then (level(xs[i]), Some(xs[i])) else best
  {
    assert xs[..i + 1][..i] == xs[..i];
  }

  /** In the terms of the headings: no deepest heading exactly when no
      entry qualifies; otherwise the stripped value of a qualifying entry
      whose level no entry exceeds and no earlier entry reaches. */
  lemma {:induction false} DeepestHeadingSpec(fields: Fields)
    ensures var d := DeepestHeadingText(Json.JObj(fields));
      && (d.None? <==> forall k :: 0 <= k < |fields| ==> !Qualifies(fields[k]))
      && (d.Some? ==> exists k :: 0 <= k < |fields| && Qualifies(fields[k]) && FirstMaxAt(fields, EntryLevel, k)
                                  && d.value == Text.Strip(fields[k].1.s))
  {
    RunningMaxSpec(fields, EntryLevel);
    var r := RunningMax(fields, EntryLevel);
    if r.1.None? {
      forall k | 0 <= k < |fields| ensures !Qualifies(fields[k]) {
        assert EntryLevel(fields[k]) <= -1;
      }
    } else {
      var k :| 0 <= k < |fields| && FirstMaxAt(fields, EntryLevel, k) && fields[k] == r.1.value && EntryLevel(fields[k]) == r.0;
      assert Qualifies(fields[k]);
    }
  }

  /** The deepest heading, when there is one, is a non-empty stripped
      title, so `if deepest` holds exactly when one was found. */
  lemma {:induction false} DeepestHeadingNonEmpty(headings: Json.Json)
    ensures var d := DeepestHeadingText(headings);
      d.Some? ==> d.value != "" && d.value == Text.Strip(d.value)
  {
    if headings.JObj? {
      var r := RunningMax(headings.fields, EntryLevel);
      if r.1.Some? {
        var v := r.1.value.1.s;
        Text.StripSpec(v);
        Text.StripIdempotent(v);
      }
    }
  }

  /** A key `h` followed by digits names the level the digits spell. */
  lemma {:induction false} KeyLevelDigits(digits: string)
    requires digits != "" && forall i :: 0 <= i < |digits| ==> Text.IsDigit(digits[i])
    ensures KeyLevel("h" + digits) == Some(Text.DigitsValue(digits) as int)
  {
    assert ("h" + digits)[1..] == digits;
    Text.ParseIntDigits(digits);
  }

  /** A leading zero does not change the value of a digit string. */
  lemma {:induction false} LeadingZeroValue(digits: string)
    requires forall i :: 0 <= i < |digits| ==> Text.IsDigit(digits[i])
    ensures Text.DigitsValue("0" + digits) == Text.DigitsValue(digits)
  {
    if digits != "" {
      var init := digits[..|digits| - 1];
      LeadingZeroValue(init);
      assert ("0" + digits)[..|digits|] == "0" + init;
    }
  }

  /** `int` accepts leading zeros: `h03` names level 3, like `h3`. */
  lemma {:induction false} LeadingZeroLevel(n: nat)
    ensures KeyLevel("h0" + Text.NatToString(n)) == Some(n)
  {
    var digits := Text.NatToString(n);
    assert "h0" + digits == "h" + ("0" + digits);
    KeyLevelDigits("0" + digits);
    LeadingZeroValue(digits);
    Text.NatToStringRoundTrip(n);
  }

  // ---------------------------------------------------------------- records and lines

  /** The record after the rewrite: `text` gets the deepest heading and the
      delimiter in front when it is a string and a heading was found;
      otherwise the record is unchanged. A missing `headings` reads as
      `None`. */
  function Prefixed(fields: Fields): Fields {
    var deepest := DeepestHeadingText(match Json.Get(fields, "headings") case Some(h) => h case None => Json.JNull);
    match Json.Get(fields, "text")
    case Some(JStr(text)) =>
      if deepest.Some? then Json.Set(fields, "text", Json.JStr(deepest.value + Delimiter + text)) else fields
    case _ => fields
  }

  /** Only `text` changes, in place, and it changes exactly when it is a
      string and the record has a deepest heading. */
  lemma {:induction false} PrefixedSpec(fields: Fields, other: string)
    requires other != "text"
    ensures var r := Prefixed(fields);
      var deepest := DeepestHeadingText(match Json.Get(fields, "headings") case Some(h) => h case None => Json.JNull);
      && Json.Keys(r) == Json.Keys(fields)
      && Json.Get(r, other) == Json.Get(fields, other)
      && (if Json.Get(fields, "text").Some? && Json.Get(fields, "text").value.JStr? && deepest.Some?
          then Json.Get(r, "text") == Some(Json.JStr(deepest.value + Delimiter + Json.Get(fields, "text").value.s))
          else r == fields)
  {
    var deepest := DeepestHeadingText(match Json.Get(fields, "headings") case Some(h) => h case None => Json.JNull);
    var text := Json.Get(fields, "text");
    if text.Some? && text.value.JStr? && deepest.Some? {
      var v := Json.JStr(deepest.value + Delimiter + text.value.s);
      Json.SetGet(fields, "text", v, other);
      Json.SetKeys(fields, "text", v);
    }
  }

  /** The body of the line loop of `process_file`, given `parsed`, the
      outcome of `json.loads(line)` (`None` for a decode error). A JSON
      value that is not an object has no `get`: the run stops there. */
  function ProcessLine(line: string, parsed: Option<Json.Json>): Result<Json.OutLine> {
    if Text.IsBlank(line) then Ok(Json.Verbatim(line))
    else
      match parsed
      case None => Ok(Json.Verbatim(line))
      case Some(JObj(fields)) => Ok(Json.Record(Prefixed(fields)))
      case Some(_) => Err("AttributeError: object has no attribute 'get'")
  }

  /** The output of the whole file: one line per input line, in order,
      unless some line fails. */
  function ProcessAll(lines: seq<string>, parse: string -> Option<Json.Json>): Result<seq<Json.OutLine>> {
    if lines == [] then Ok([])
    else
      match ProcessAll(lines[..|lines| - 1], parse)
      case Err(e) => Err(e)
      case Ok(out) =>
        match ProcessLine(lines[|lines| - 1], parse(lines[|lines| - 1]))
        case Err(e) => Err(e)
        case Ok(o) => Ok(out + [o])
  }

  /** The line loop of `process_file`. */
  method ProcessFile(lines: seq<string>, parse: string -> Option<Json.Json>) returns (result: Result<seq<Json.OutLine>>)
    ensures result == ProcessAll(lines, parse)
  {
    var out: seq<Json.OutLine> := [];
    var i := 0;
    while i < |lines|
      invariant i <= |lines|
      invariant ProcessAll(lines[..i], parse) == Ok(out)
    {
      assert lines[..i + 1][..i] == lines[..i];
      var line := lines[i];
      var o: Json.OutLine;
      if Text.IsBlank(line) {
        o := Json.Verbatim(line);
      } else {
        var parsed := parse(line);
        if parsed.None? {
          o := Json.Verbatim(line);
        } else if parsed.value.JObj? {
          o := Json.Record(Prefixed(parsed.value.fields));
        } else {
          ProcessAllStops(lines, parse, i);
          assert lines[..|lines|] == lines;
          return Err("AttributeError: object has no attribute 'get'");
        }
      }
      out := out + [o];
      i := i + 1;
    }
    assert lines[..i] == lines;
    result := Ok(out);
  }

  /** Once a line fails, the whole file fails. */
  lemma {:induction false} ProcessAllStops(lines: seq<string>, parse: string -> Option<Json.Json>, i: nat)
    requires i < |lines| && ProcessLine(lines[i], parse(lines[i])).Err?
    requires ProcessAll(lines[..i], parse).Ok?
    ensures ProcessAll(lines, parse) == Err(ProcessLine(lines[i], parse(lines[i])).error)
    decreases |lines|
  {
    assert lines[..i + 1][..i] == lines[..i];
    if |lines| > i + 1 {
      var init := lines[..|lines| - 1];
      assert init[..i] == lines[..i] && init[i] == lines[i];
      ProcessAllStops(init, parse, i);
    }
  }

  /** A run that succeeds writes one line per input line, in order: blank
      and undecodable lines verbatim, records rewritten by `Prefixed`; it
      fails exactly when some non-blank line decodes to something other
      than an object. */
  lemma {:induction false} ProcessAllSpec(lines: seq<string>, parse: string -> Option<Json.Json>)
    ensures var r := ProcessAll(lines, parse);
      && (r.Ok? <==> forall k :: 0 <= k < |lines| ==> ProcessLine(lines[k], parse(lines[k])).Ok?)
      && (r.Ok? ==> |r.value| == |lines|)
      && (r.Ok? ==> forall k :: 0 <= k < |lines| ==> r.value[k] == ProcessLine(lines[k], parse(lines[k])).value)
  {
    if lines != [] {
      var init := lines[..|lines| - 1];
      ProcessAllSpec(init, parse);
      forall k | 0 <= k < |init| ensures init[k] == lines[k] { }
    }
  }

  /** A line comes out verbatim exactly when it is blank or not JSON; an
      object comes out with only its text prefixed. */
  lemma {:induction false} ProcessLineSpec(line: string, parsed: Option<Json.Json>)
    ensures var r := ProcessLine(line, parsed);
      && (r == Ok(Json.Verbatim(line)) <==> Text.IsBlank(line) || parsed.None?)
      && (r.Err? <==> !Text.IsBlank(line) && parsed.Some? && !parsed.value.JObj?)
      && (!Text.IsBlank(line) && parsed.Some? && parsed.value.JObj? ==> r == Ok(Json.Record(Prefixed(parsed.value.fields))))
  {
  }

  /** `input_path + ".embeddings.ndjson"` */
  function OutputPath(inputPath: string): (out: string)
    ensures |out| == |inputPath| + 18 && out[..|inputPath|] == inputPath
    ensures Text.EndsWith(out, ".embeddings.ndjson")
  {
    inputPath + ".embeddings.ndjson"
  }
}
