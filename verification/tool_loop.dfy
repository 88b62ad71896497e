/** The chat client with one local tool, `subquery`: it sends the message
    history to the chat endpoint, runs every tool call the assistant asks
    for, appends the results and asks again, for at most five requests.
    The endpoint is the parameter `chat` (the reply to a history, `None`
    when the request fails) and the JSON decoder the parameter `parse`. */
module ToolLoop {
  import opened Wrappers
  import Text
  import Json

  type Fields = seq<(string, Json.Json)>

  /** `subquery(text)`: the local tool, `text.upper()`. */
  function Subquery(text: string): string {
    Text.Upper(text)
  }

  /** Asking the tool about its own answer changes nothing, and its answers
      hold no ASCII lower-case letter. */
  lemma {:induction false} SubquerySpec(text: string)
    ensures Subquery(Subquery(text)) == Subquery(text)
    ensures forall i :: 0 <= i < |Subquery(text)| ==> !('a' <= Subquery(text)[i] <= 'z')
  {
    Text.UpperIdempotent(text);
    Text.UpperNoLower(text);
  }

  // ---------------------------------------------------------------- base URL

  /** `_build_base_url(server)`: every result is an http or https URL
      without a trailing slash; a server given with a scheme is kept, less
      surrounding whitespace and trailing slashes, and anything else is
      taken as a host on port 11434. */
  function BuildBaseUrl(server: string): (r: string)
    ensures Text.StartsWith(r, "http://") || Text.StartsWith(r, "https://")
    ensures r[|r| - 1] != '/'
    ensures var s := Text.TrimEnd(Text.Strip(server), {'/'});
      && (Text.StartsWith(s, "http://") || Text.StartsWith(s, "https://") ==> r == s)
      && (!Text.StartsWith(s, "http://") && !Text.StartsWith(s, "https://") ==> r == "http://" + s + ":11434")
  {
    var s := Text.TrimEnd(Text.Strip(server), {'/'});
    if Text.StartsWith(s, "http://") || Text.StartsWith(s, "https://") then s
    else
      var r := "http://" + s + ":11434";
      assert r[..7] == "http://";
      r
  }

  /** A plain host name gets the scheme and the port. */
  lemma {:induction false} BuildBaseUrlHost(host: string)
    requires host != "" && host[0] != 'h' && !Text.IsSpace(host[0])
    requires !Text.IsSpace(host[|host| - 1]) && host[|host| - 1] != '/'
    ensures BuildBaseUrl(host) == "http://" + host + ":11434"
  {
    Text.StripUnchanged(host);
    Text.TrimEndKeeps(host, {'/'});
    Text.NotStartsWith(host, "http://");
    Text.NotStartsWith(host, "https://");
  }

  // ---------------------------------------------------------------- tool calls

  /** `_extract_tool_calls(message)`: the calls come from `tool_calls` when
      it is a list, else from `tool_call` when that is one; there are none
      otherwise, and none for a message that is not a dict. */
  function ExtractToolCalls(message: Json.Json): (calls: seq<Json.Json>)
    ensures !message.JObj? ==> calls == []
    ensures message.JObj? && Json.Get(message.fields, "tool_calls").Some? && Json.Get(message.fields, "tool_calls").value.JArr? ==>
      calls == Json.Get(message.fields, "tool_calls").value.items
    ensures calls != [] ==> message.JObj?
    ensures calls != [] ==>
      Json.Get(message.fields, "tool_calls") == Some(Json.JArr(calls)) || Json.Get(message.fields, "tool_call") == Some(Json.JArr(calls))
  {
    if !message.JObj? then []
    else match Json.Get(message.fields, "tool_calls")
      case Some(JArr(calls)) => calls
      case _ =>
        match Json.Get(message.fields, "tool_call")
        case Some(JArr(calls)) => calls
        case _ => []
  }

  /** `_parse_function_call_arguments(raw_args)`, `raw_args` being `None`
      when the call has no arguments: a dict as it is, a string through
      the decoder (whatever it decodes to) or, failing that, wrapped as
      `{"text": raw}`; anything else gives `{}`.  Only a string can give
      something other than a dict. */
  function ParseArgs(rawArgs: Option<Json.Json>, parse: string -> Option<Json.Json>): (args: Json.Json)
    ensures rawArgs.Some? && rawArgs.value.JObj? ==> args == rawArgs.value
    ensures !args.JObj? ==> rawArgs.Some? && rawArgs.value.JStr? && parse(rawArgs.value.s) == Some(args)
    ensures rawArgs.Some? && rawArgs.value.JStr? && parse(rawArgs.value.s).None? ==>
      args.JObj? && Json.Get(args.fields, "text") == Some(rawArgs.value)
    ensures rawArgs.None? || !(rawArgs.value.JObj? || rawArgs.value.JStr?) ==> args == Json.JObj([])
  {
    match rawArgs
    case Some(JObj(fields)) => Json.JObj(fields)
    case Some(JStr(s)) => (match parse(s) case Some(v) => v case None => Json.JObj([("text", Json.JStr(s))]))
    case _ => Json.JObj([])
  }

  /** The text given to `subquery`: `str(args.get("text", ""))`. */
  function TextArg(args: Fields): string {
    match Json.Get(args, "text")
    case None => ""
    case Some(v) => Json.PyStr(v)
  }

  /** The error string for a tool other than `subquery`. */
  function UnknownTool(name: Option<Json.Json>): string {
    "Erreur: outil non support\U{E9} '" + (if name.None? then "None" else Json.PyStr(name.value)) + "'"
  }

  /** `call.get("id")` when it is a non-empty string. */
  function CallId(call: Fields): Option<string> {
    match Json.Get(call, "id")
    case Some(JStr(s)) => if s != "" then Some(s) else None
    case _ => None
  }

  /** The `tool` message for a name, a result and a call id. */
  function ToolMessage(name: Option<Json.Json>, result: string, id: Option<string>): Json.Json {
    var nameValue := if name.Some? && Json.Truthy(name.value) then name.value else Json.JStr("unknown");
    Json.JObj([("role", Json.JStr("tool")), ("name", nameValue), ("content", Json.JStr(result))]
              + (if id.Some? then [("tool_call_id", Json.JStr(id.value))] else []))
  }

  /** The body of the tool-call loop of `run_chat` for one call: its `tool`
      message, or the exception it raises (a call that is not a dict, a
      `function` entry that is neither falsy nor a dict, or `subquery`
      arguments that are not a dict). */
  function RunToolCall(call: Json.Json, parse: string -> Option<Json.Json>): Result<Json.Json> {
    if !call.JObj? then Err("AttributeError: the call is not a dict")
    else
      var fnEntry := Json.Get(call.fields, "function");
      var fn := if fnEntry.Some? && Json.Truthy(fnEntry.value) then fnEntry.value else Json.JObj([]);
      if !fn.JObj? then Err("AttributeError: the function entry is not a dict")
      else
        var name := Json.Get(fn.fields, "name");
        var args := ParseArgs(Json.Get(fn.fields, "arguments"), parse);
        if name == Some(Json.JStr("subquery")) then
          if !args.JObj? then Err("AttributeError: the arguments are not a dict")
          else Ok(ToolMessage(name, Subquery(TextArg(args.fields)), CallId(call.fields)))
        else Ok(ToolMessage(name, UnknownTool(name), CallId(call.fields)))
  }

  /** The tool-call loop body as a function of the call. */
  function ToolRunner(parse: string -> Option<Json.Json>): Json.Json -> Result<Json.Json> {
    call => RunToolCall(call, parse)
  }

  /** The `tool` messages of the calls, in call order, or the first
      exception. */
  function RunToolCalls(calls: seq<Json.Json>, run: Json.Json -> Result<Json.Json>): Result<seq<Json.Json>> {
    if calls == [] then Ok([])
    else
      match RunToolCalls(calls[..|calls| - 1], run)
      case Err(e) => Err(e)
      case Ok(msgs) =>
        match run(calls[|calls| - 1])
        case Err(e) => Err(e)
        case Ok(m) => Ok(msgs + [m])
  }

  /** One message per call, in call order. */
  lemma {:induction false} RunToolCallsSpec(calls: seq<Json.Json>, run: Json.Json -> Result<Json.Json>)
    ensures var r := RunToolCalls(calls, run);
      && (r.Ok? <==> forall k :: 0 <= k < |calls| ==> run(calls[k]).Ok?)
      && (r.Ok? ==> |r.value| == |calls| && forall k :: 0 <= k < |calls| ==> r.value[k] == run(calls[k]).value)
  {
    if calls != [] {
      var init := calls[..|calls| - 1];
      RunToolCallsSpec(init, run);
      forall k | 0 <= k < |init| ensures init[k] == calls[k] { }
    }
  }

  /** A `subquery` call answers the upper-cased `text` argument; any other
      name answers an error naming it; the message carries the call's id
      exactly when that is a non-empty string. */
  lemma {:induction false} RunToolCallSpec(call: Fields, fn: Fields, parse: string -> Option<Json.Json>)
    requires Json.Get(call, "function") == Some(Json.JObj(fn))
    ensures var r := RunToolCall(Json.JObj(call), parse);
      var name := Json.Get(fn, "name");
      var args := ParseArgs(Json.Get(fn, "arguments"), parse);
      && (name == Some(Json.JStr("subquery")) && args.JObj? ==>
            r == Ok(ToolMessage(name, Text.Upper(TextArg(args.fields)), CallId(call))))
      && (name == Some(Json.JStr("subquery")) && !args.JObj? ==> r.Err?)
      && (name != Some(Json.JStr("subquery")) ==> r == Ok(ToolMessage(name, UnknownTool(name), CallId(call))))
  {
  }

  /** A call that is not a dict, or whose `function` entry is truthy but
      not a dict, raises; a call without a usable `function` entry is an
      unsupported tool with no name. */
  lemma {:induction false} RunToolCallMalformed(call: Json.Json, parse: string -> Option<Json.Json>)
    ensures !call.JObj? ==> RunToolCall(call, parse).Err?
    ensures call.JObj? && Json.Get(call.fields, "function").Some? ==>
      var fnEntry := Json.Get(call.fields, "function").value;
      Json.Truthy(fnEntry) && !fnEntry.JObj? ==> RunToolCall(call, parse).Err?
    ensures call.JObj? && (Json.Get(call.fields, "function").None? || !Json.Truthy(Json.Get(call.fields, "function").value)) ==>
      RunToolCall(call, parse) == Ok(ToolMessage(None, UnknownTool(None), CallId(call.fields)))
  {
  }

  /** The reply carries `tool_call_id` exactly when the call's `id` is a
      non-empty string, and then carries that id. */
  lemma {:induction false} CallIdSpec(call: Fields, name: Option<Json.Json>, result: string)
    ensures var fields := ToolMessage(name, result, CallId(call)).fields;
      && (Json.Get(fields, "tool_call_id").Some? <==> exists s :: Json.Get(call, "id") == Some(Json.JStr(s)) && s != "")
      && (forall s :: Json.Get(call, "id") == Some(Json.JStr(s)) && s != "" ==> Json.Get(fields, "tool_call_id") == Some(Json.JStr(s)))
  {
    var id := Json.Get(call, "id");
    var fields := ToolMessage(name, result, CallId(call)).fields;
    assert fields[0].0 == "role" && fields[1].0 == "name" && fields[2].0 == "content";
    assert Json.Get(fields, "tool_call_id") == Json.Get(fields[1..], "tool_call_id");
    assert Json.Get(fields[1..], "tool_call_id") == Json.Get(fields[2..], "tool_call_id") by {
      assert fields[1..][1..] == fields[2..];
    }
    assert Json.Get(fields[2..], "tool_call_id") == Json.Get(fields[3..], "tool_call_id") by {
      assert fields[2..][1..] == fields[3..];
    }
    if id.Some? && id.value.JStr? && id.value.s != "" {
      assert CallId(call) == Some(id.value.s);
    }
  }

  /** Arguments given as a string that is not JSON reach `subquery` as its
      text. */
  lemma {:induction false} RawArgumentsAsText(call: Fields, raw: string, parse: string -> Option<Json.Json>)
    requires parse(raw).None?
    requires Json.Get(call, "function") == Some(Json.JObj([("name", Json.JStr("subquery")), ("arguments", Json.JStr(raw))]))
    ensures RunToolCall(Json.JObj(call), parse) == Ok(ToolMessage(Some(Json.JStr("subquery")), Text.Upper(raw), CallId(call)))
  {
    var fn: Fields := [("name", Json.JStr("subquery")), ("arguments", Json.JStr(raw))];
    assert Json.Get(fn, "name") == Some(Json.JStr("subquery"));
    assert Json.Get(fn, "arguments") == Some(Json.JStr(raw)) by {
      assert fn[1..] == [("arguments", Json.JStr(raw))];
    }
    var args: Fields := [("text", Json.JStr(raw))];
    assert TextArg(args) == raw;
  }

  /** The tool-call loop of `run_chat`: appends one `tool` message per call. */
  method AppendToolMessages(messages: seq<Json.Json>, calls: seq<Json.Json>, run: Json.Json -> Result<Json.Json>)
    returns (r: Result<seq<Json.Json>>)
    ensures RunToolCalls(calls, run).Err? <==> r.Err?
    ensures r.Ok? ==> r.value == messages + RunToolCalls(calls, run).value
  {
    var msgs := messages;
    for j := 0 to |calls|
      invariant RunToolCalls(calls[..j], run).Ok?
      invariant msgs == messages + RunToolCalls(calls[..j], run).value
    {
      assert calls[..j + 1][..j] == calls[..j];
      var m := run(calls[j]);
      if m.Err? {
        RunToolCallsFails(calls, run, j + 1);
        return Err(m.error);
      }
      msgs := msgs + [m.value];
    }
    assert calls[..|calls|] == calls;
    return Ok(msgs);
  }

  /** An exception in a prefix of the calls is an exception of them all. */
  lemma {:induction false} RunToolCallsFails(calls: seq<Json.Json>, run: Json.Json -> Result<Json.Json>, j: nat)
    requires j <= |calls| && RunToolCalls(calls[..j], run).Err?
    ensures RunToolCalls(calls, run).Err?
    decreases |calls| - j
  {
    if j < |calls| {
      assert calls[..j + 1][..j] == calls[..j];
      RunToolCallsFails(calls, run, j + 1);
    } else {
      assert calls[..j] == calls;
    }
  }

  // ---------------------------------------------------------------- the chat loop

  function UserMessage(text: string): Json.Json {
    Json.JObj([("role", Json.JStr("user")), ("content", Json.JStr(text))])
  }

  /** The assistant message that asks for tools: `content or ""`. */
  function AssistantCalls(content: Json.Json, calls: seq<Json.Json>): Json.Json {
    Json.JObj([("role", Json.JStr("assistant")),
               ("content", if Json.Truthy(content) then content else Json.JStr("")),
               ("tool_calls", Json.JArr(calls))])
  }

  function AssistantReply(content: Json.Json): Json.Json {
    Json.JObj([("role", Json.JStr("assistant")), ("content", content)])
  }

  /** How one round of `run_chat` ends. */
  datatype Round =
    | Crash(error: string)                        // an exception leaves `run_chat`
    | Again(history: seq<Json.Json>)              // tools ran: `continue`
    | Answer(content: Json.Json, history: seq<Json.Json>)  // `return content, messages`
    | Quiet                                       // no tool, no content: `break`

  /** `data.get("message", {})` for a dict reply, `{}` otherwise. */
  function AssistantOf(data: Json.Json): Json.Json {
    if data.JObj? then
      match Json.Get(data.fields, "message")
      case Some(m) => m
      case None => Json.JObj([])
    else Json.JObj([])
  }

  /** `assistant_msg.get("content", "")` */
  function ContentOf(msg: Fields): Json.Json {
    match Json.Get(msg, "content")
    case Some(c) => c
    case None => Json.JStr("")
  }

  /** One pass of the `for _ in range(5)` loop of `run_chat`. */
  function ChatRound(history: seq<Json.Json>, chat: seq<Json.Json> -> Option<Json.Json>, parse: string -> Option<Json.Json>): Round {
    var data := chat(history);
    if data.None? then Crash("RequestException")
    else
      var msg := AssistantOf(data.value);
      if !msg.JObj? then Crash("AttributeError: the message is not a dict")
      else Respond(history, ContentOf(msg.fields), ExtractToolCalls(msg), ToolRunner(parse))
  }

  /** The end of a round, once the assistant message has been read: run
      the tools it asks for, or take its content as the answer. */
  function Respond(history: seq<Json.Json>, content: Json.Json, calls: seq<Json.Json>, run: Json.Json -> Result<Json.Json>): Round {
    if calls != [] then
      match RunToolCalls(calls, run)
      case Err(e) => Crash(e)
      case Ok(toolMsgs) => Again(history + [AssistantCalls(content, calls)] + toolMsgs)
    else if Json.Truthy(content) then Answer(content, history + [AssistantReply(content)])
    else Quiet
  }

  /** What `run_chat` returns, or that it raises. */
  datatype Outcome = Replied(content: Json.Json) | NoReply | Raised(error: string)

  /** A run: the histories sent, one per request, the final history and
      the outcome. */
  datatype Run = Run(sent: seq<seq<Json.Json>>, history: seq<Json.Json>, outcome: Outcome)

  /** The round function of one endpoint. */
  function Step(chat: seq<Json.Json> -> Option<Json.Json>, parse: string -> Option<Json.Json>): seq<Json.Json> -> Round {
    history => ChatRound(history, chat, parse)
  }

  /** What every round of `run_chat` guarantees: a tool round appends at
      least one message, and an answer appends the assistant's reply,
      which is truthy. */
  ghost predicate Appends(step: seq<Json.Json> -> Round) {
    forall h ::
      && (step(h).Again? ==> |h| < |step(h).history| && IsPrefix(h, step(h).history))
      && (step(h).Answer? ==> Json.Truthy(step(h).content) && step(h).history == h + [AssistantReply(step(h).content)])
  }

  /** The rounds left to run from `history`. */
  function RunFrom(history: seq<Json.Json>, rounds: nat, step: seq<Json.Json> -> Round): Run
    decreases rounds
  {
    if rounds == 0 then Run([], history, NoReply)
    else
      match step(history)
      case Crash(e) => Run([history], history, Raised(e))
      case Quiet => Run([history], history, NoReply)
      case Answer(content, h) => Run([history], h, Replied(content))
      case Again(h) =>
        var rest := RunFrom(h, rounds - 1, step);
        Run([history] + rest.sent, rest.history, rest.outcome)
  }

  /** `run_chat(server, model, user_text)`, for the round function
      `Step(chat, parse)` of an endpoint. */
  function RunChat(userText: string, step: seq<Json.Json> -> Round): Run {
    RunFrom([UserMessage(userText)], 5, step)
  }

  /** `s` extends `p`. */
  predicate IsPrefix<T(==)>(p: seq<T>, s: seq<T>) {
    |p| <= |s| && s[..|p|] == p
  }

  lemma {:induction false} PrefixTrans<T>(a: seq<T>, b: seq<T>, c: seq<T>)
    requires IsPrefix(a, b) && IsPrefix(b, c)
    ensures IsPrefix(a, c)
  {
    assert c[..|a|] == c[..|b|][..|a|];
  }

  /** Every round of `run_chat` appends to the history it was given. */
  lemma {:induction false} StepAppends(chat: seq<Json.Json> -> Option<Json.Json>, parse: string -> Option<Json.Json>)
    ensures Appends(Step(chat, parse))
  {
    var step := Step(chat, parse);
    forall h ensures
      && (step(h).Again? ==> |h| < |step(h).history| && IsPrefix(h, step(h).history))
      && (step(h).Answer? ==> Json.Truthy(step(h).content) && step(h).history == h + [AssistantReply(step(h).content)])
    {
      if chat(h).Some? && AssistantOf(chat(h).value).JObj? {
        var msg := AssistantOf(chat(h).value);
        RespondAppends(h, ContentOf(msg.fields), ExtractToolCalls(msg), ToolRunner(parse));
      }
    }
  }

  lemma {:induction false} RespondAppends(h: seq<Json.Json>, content: Json.Json, calls: seq<Json.Json>, run: Json.Json -> Result<Json.Json>)
    ensures var r := Respond(h, content, calls, run);
      && (r.Again? ==> |h| < |r.history| && IsPrefix(h, r.history))
      && (r.Answer? ==> Json.Truthy(r.content) && r.history == h + [AssistantReply(r.content)])
  {
    var r := Respond(h, content, calls, run);
    if r.Again? {
      var t := h + [AssistantCalls(content, calls)];
      assert r.history == t + RunToolCalls(calls, run).value;
      assert (t + RunToolCalls(calls, run).value)[..|h|] == h;
    }
  }

  /** One to `rounds` requests, the first sending the starting history. */
  lemma {:induction false} RunFromSent(history: seq<Json.Json>, rounds: nat, step: seq<Json.Json> -> Round)
    requires rounds >= 1
    ensures var run := RunFrom(history, rounds, step);
      1 <= |run.sent| <= rounds && run.sent[0] == history
    decreases rounds
  {
    if rounds > 1 && step(history).Again? {
      RunFromSent(step(history).history, rounds - 1, step);
    }
  }

  /** The final history extends every history sent. */
  lemma {:induction false} RunFromHistory(history: seq<Json.Json>, rounds: nat, step: seq<Json.Json> -> Round)
    requires Appends(step)
    ensures var run := RunFrom(history, rounds, step);
      IsPrefix(history, run.history) && forall i :: 0 <= i < |run.sent| ==> IsPrefix(run.sent[i], run.history)
    decreases rounds
  {
    var run := RunFrom(history, rounds, step);
    if rounds > 0 {
      match step(history)
      case Crash(e) =>
      case Quiet =>
      case Answer(content, h) =>
        assert (history + [AssistantReply(content)])[..|history|] == history;
      case Again(h) =>
        RunFromHistory(h, rounds - 1, step);
        var rest := RunFrom(h, rounds - 1, step);
        PrefixTrans(history, h, rest.history);
        forall i | 0 <= i < |run.sent| ensures IsPrefix(run.sent[i], run.history) {
          if i > 0 {
            assert run.sent[i] == rest.sent[i - 1];
          }
        }
    }
  }

  /** Every history sent extends, strictly, every one sent before it. */
  lemma {:induction false} RunFromChain(history: seq<Json.Json>, rounds: nat, step: seq<Json.Json> -> Round)
    requires Appends(step)
    ensures var run := RunFrom(history, rounds, step);
      && (forall j :: 0 < j < |run.sent| ==> IsPrefix(history, run.sent[j]) && |history| < |run.sent[j]|)
      && (forall i, j :: 0 <= i < j < |run.sent| ==> IsPrefix(run.sent[i], run.sent[j]) && |run.sent[i]| < |run.sent[j]|)
    decreases rounds
  {
    var run := RunFrom(history, rounds, step);
    if rounds > 1 && step(history).Again? {
      var h := step(history).history;
      RunFromChain(h, rounds - 1, step);
      RunFromSent(h, rounds - 1, step);
      var rest := RunFrom(h, rounds - 1, step);
      assert run.sent == [history] + rest.sent;
      forall j | 0 < j < |run.sent| ensures IsPrefix(history, run.sent[j]) && |history| < |run.sent[j]| {
        assert run.sent[j] == rest.sent[j - 1];
        if j > 1 {
          PrefixTrans(history, h, rest.sent[j - 1]);
        }
      }
    }
  }

  /** A run replies only with truthy content, which the final history ends
      with as an assistant message. */
  lemma {:induction false} RepliedSpec(history: seq<Json.Json>, rounds: nat, step: seq<Json.Json> -> Round)
    requires Appends(step)
    ensures var run := RunFrom(history, rounds, step);
      run.outcome.Replied? ==>
        Json.Truthy(run.outcome.content) && run.history != [] && run.history[|run.history| - 1] == AssistantReply(run.outcome.content)
    decreases rounds
  {
    if rounds > 0 && step(history).Again? {
      RepliedSpec(step(history).history, rounds - 1, step);
    }
  }

  /** `run_chat` sends at most five requests, the first with only the user
      message; its history only grows, and a reply is truthy and closes it. */
  lemma {:induction false} RunChatSpec(userText: string, step: seq<Json.Json> -> Round)
    requires Appends(step)
    ensures var run := RunChat(userText, step);
      && 1 <= |run.sent| <= 5
      && run.sent[0] == [UserMessage(userText)]
      && run.history != [] && run.history[0] == UserMessage(userText)
      && (forall i :: 0 <= i < |run.sent| ==> IsPrefix(run.sent[i], run.history))
      && (run.outcome.Replied? ==>
            Json.Truthy(run.outcome.content) && run.history[|run.history| - 1] == AssistantReply(run.outcome.content))
  {
    RunFromSent([UserMessage(userText)], 5, step);
    RunFromHistory([UserMessage(userText)], 5, step);
    RepliedSpec([UserMessage(userText)], 5, step);
  }

  /** A tool round appends the assistant's request and then one `tool`
      message per call, in call order. */
  lemma {:induction false} ToolRoundSpec(history: seq<Json.Json>, content: Json.Json, calls: seq<Json.Json>, run: Json.Json -> Result<Json.Json>)
    requires calls != [] && RunToolCalls(calls, run).Ok?
    ensures var r := Respond(history, content, calls, run);
      && r.Again?
      && |r.history| == |history| + 1 + |calls|
      && r.history[..|history|] == history
      && r.history[|history|] == AssistantCalls(content, calls)
      && forall k :: 0 <= k < |calls| ==> run(calls[k]) == Ok(r.history[|history| + 1 + k])
  {
    RunToolCallsSpec(calls, run);
    var toolMsgs := RunToolCalls(calls, run).value;
    var h := history + [AssistantCalls(content, calls)] + toolMsgs;
    assert Respond(history, content, calls, run) == Again(h);
    forall k | 0 <= k < |calls| ensures run(calls[k]) == Ok(h[|history| + 1 + k]) {
      assert h[|history| + 1 + k] == toolMsgs[k];
    }
  }

  /** A reply without tool calls ends the run: with its content appended
      when that is truthy, with nothing appended otherwise. */
  lemma {:induction false} FinalRoundSpec(history: seq<Json.Json>, rounds: nat, step: seq<Json.Json> -> Round,
                                          content: Json.Json, run: Json.Json -> Result<Json.Json>)
    requires rounds >= 1 && step(history) == Respond(history, content, [], run)
    ensures var r := RunFrom(history, rounds, step);
      && (Json.Truthy(content) ==> r.outcome == Replied(content) && r.history == history + [AssistantReply(content)])
      && (!Json.Truthy(content) ==> r.outcome == NoReply && r.history == history)
      && r.sent == [history]
  {
  }

  /** The exit status of `main`: 1 when `run_chat` raises, 0 for a truthy
      reply, 2 otherwise. */
  function ExitCode(outcome: Outcome): int {
    match outcome
    case Raised(_) => 1
    case Replied(content) => if Json.Truthy(content) then 0 else 2
    case NoReply => 2
  }

  /** `main` succeeds exactly when the assistant replied. */
  lemma {:induction false} ExitCodeSpec(userText: string, step: seq<Json.Json> -> Round)
    requires Appends(step)
    ensures var outcome := RunChat(userText, step).outcome;
      && (ExitCode(outcome) == 0 <==> outcome.Replied?)
      && (ExitCode(outcome) == 1 <==> outcome.Raised?)
      && (ExitCode(outcome) == 2 <==> outcome.NoReply?)
  {
    RunChatSpec(userText, step);
  }

  /** The body of the `for _ in range(5)` loop of `run_chat`. */
  method ChatOnce(messages: seq<Json.Json>, chat: seq<Json.Json> -> Option<Json.Json>, parse: string -> Option<Json.Json>)
    returns (r: Round)
    ensures r == Step(chat, parse)(messages)
  {
    var data := chat(messages);
    if data.None? {
      return Crash("RequestException");
    }
    var msg := AssistantOf(data.value);
    if !msg.JObj? {
      return Crash("AttributeError: the message is not a dict");
    }
    var content := ContentOf(msg.fields);
    var calls := ExtractToolCalls(msg);
    if calls != [] {
      var appended := AppendToolMessages(messages + [AssistantCalls(content, calls)], calls, ToolRunner(parse));
      if appended.Err? {
        return Crash(RunToolCalls(calls, ToolRunner(parse)).error);
      }
      return Again(appended.value);
    } else if Json.Truthy(content) {
      return Answer(content, messages + [AssistantReply(content)]);
    }
    return Quiet;
  }

  /** With `requests` sent and `history` reached, the rounds still to run
      finish the run `goal`. */
  predicate Pending(history: seq<Json.Json>, requests: nat, step: seq<Json.Json> -> Round, goal: Run)
    requires requests <= 5
  {
    var rest := RunFrom(history, 5 - requests, step);
    rest.outcome == goal.outcome && rest.history == goal.history && requests + |rest.sent| == |goal.sent|
  }

  /** A tool round moves the pending run one request on. */
  lemma PendingAgain(history: seq<Json.Json>, requests: nat, step: seq<Json.Json> -> Round, goal: Run)
    requires requests < 5 && Pending(history, requests, step, goal) && step(history).Again?
    ensures Pending(step(history).history, requests + 1, step, goal)
  {
    var rest := RunFrom(step(history).history, 5 - requests - 1, step);
    assert RunFrom(history, 5 - requests, step) == Run([history] + rest.sent, rest.history, rest.outcome);
  }

  /** Any other round ends the run with this request. */
  lemma PendingEnds(history: seq<Json.Json>, requests: nat, step: seq<Json.Json> -> Round, goal: Run)
    requires requests < 5 && Pending(history, requests, step, goal) && !step(history).Again?
    ensures requests + 1 == |goal.sent|
    ensures step(history).Crash? ==> goal.outcome == Raised(step(history).error) && goal.history == history
    ensures step(history).Quiet? ==> goal.outcome == NoReply && goal.history == history
    ensures step(history).Answer? ==> goal.outcome == Replied(step(history).content) && goal.history == step(history).history
  {
  }

  /** `run_chat`: the outcome, the final history and the number of chat
      requests sent. */
  method RunChatLoop(userText: string, chat: seq<Json.Json> -> Option<Json.Json>, parse: string -> Option<Json.Json>)
    returns (outcome: Outcome, messages: seq<Json.Json>, requests: nat)
    ensures outcome == RunChat(userText, Step(chat, parse)).outcome
    ensures messages == RunChat(userText, Step(chat, parse)).history
    ensures requests == |RunChat(userText, Step(chat, parse)).sent|
  {
    ghost var step := Step(chat, parse);
    ghost var goal := RunChat(userText, step);
    messages := [UserMessage(userText)];
    outcome := NoReply;
    requests := 0;
    var done := false;
    while requests < 5 && !done
      invariant 0 <= requests <= 5
      invariant !done ==> outcome == NoReply && Pending(messages, requests, step, goal)
      invariant done ==> outcome == goal.outcome && messages == goal.history && requests == |goal.sent|
      decreases 5 - requests, !done
    {
      var r := ChatOnce(messages, chat, parse);
      match r {
        case Again(h) =>
          PendingAgain(messages, requests, step, goal);
          messages := h;
        case Crash(e) =>
          PendingEnds(messages, requests, step, goal);
          outcome, done := Raised(e), true;
        case Answer(content, h) =>
          PendingEnds(messages, requests, step, goal);
          messages, outcome, done := h, Replied(content), true;
        case Quiet =>
          PendingEnds(messages, requests, step, goal);
          done := true;
      }
      requests := requests + 1;
    }
  }
}
