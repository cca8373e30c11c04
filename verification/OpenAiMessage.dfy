/** Chat completions as JSON documents: the whole-message parser and what it takes from a document. */
module OpenAiMessage {
  import opened Prelude

  datatype Json =
    | Null
    | Flag(b: bool)
    | Number(n: u64)
    | OtherNumber(text: string)
    | Text(s: string)
    | Array(items: seq<Json>)
    | Object(fields: map<string, Json>)

  /** The JSON library and the contract bounds: parsing a text, and whether a document, a call identity
      or tool name, and a currency are within their bounds. */
  datatype Rules = Rules(
    parse: string -> Option<Json>,
    bounded: Json -> bool,
    safeName: string -> bool,
    currency: string -> bool)

  function Get(v: Json, key: string): Option<Json> {
    if v.Object? && key in v.fields then Some(v.fields[key]) else None
  }

  function NonNull(v: Option<Json>): Option<Json> { if v.Some? && v.value.Null? then None else v }

  function AsText(v: Option<Json>): Option<string> { if v.Some? && v.value.Text? then Some(v.value.s) else None }

  function AsNumber(v: Option<Json>): Option<u64> { if v.Some? && v.value.Number? then Some(v.value.n) else None }

  function AsArray(v: Option<Json>): Option<seq<Json>> { if v.Some? && v.value.Array? then Some(v.value.items) else None }

  /** Only role, content and tool calls may carry something, the role must be the assistant's and the
      content text. */
  predicate FieldsValid(fields: map<string, Json>) {
    && (forall key :: key in fields && !fields[key].Null? ==> key in ["role", "content", "tool_calls"])
    && ("role" in fields ==> fields["role"].Null? || fields["role"] == Text("assistant"))
    && ("content" in fields ==> fields["content"].Null? || fields["content"].Text?)
  }

  datatype Finish = Stop | Length | ToolCalls | ContentFilter | UnknownFinish

  /** How a provider spells a reason. */
  function Spelled(finish: Finish): Option<string> {
    match finish
    case Stop => Some("stop")
    case Length => Some("length")
    case ToolCalls => Some("tool_calls")
    case ContentFilter => Some("content_filter")
    case UnknownFinish => None
  }

  /** A spelled reason is read back, and whatever spells none is unknown. */
  lemma FinishReadsBack(finish: Finish, text: string)
    ensures FinishOf(Spelled(finish)) == finish
    ensures FinishOf(Some(text)) == UnknownFinish <==> forall f :: Spelled(f) != Some(text)
  {
    assert Spelled(Stop) == Some("stop") && Spelled(Length) == Some("length");
    assert Spelled(ToolCalls) == Some("tool_calls") && Spelled(ContentFilter) == Some("content_filter");
  }

  function FinishOf(reason: Option<string>): Finish {
    match reason
    case None => UnknownFinish
    case Some(text) =>
      if text == "stop" then Stop
      else if text == "length" then Length
      else if text == "tool_calls" then ToolCalls
      else if text == "content_filter" then ContentFilter
      else UnknownFinish
  }

  // ---- Usage ----

  datatype Usage = Usage(input: Option<u64>, output: Option<u64>, cached: Option<u64>, costMicros: Option<u64>, currency: Option<string>)

  const NO_USAGE: Usage := Usage(None, None, None, None, None)

  predicate NumberOrNull(v: Option<Json>) { v.Some? ==> v.value.Null? || v.value.Number? }

  /** One category of token details: numbers within the total, and no audio. */
  predicate DetailsValid(details: Option<Json>, names: seq<string>, maximum: Option<u64>) {
    details.Some? && !details.value.Null? ==>
      && details.value.Object?
      && forall i :: 0 <= i < |names| ==> DetailValid(Get(details.value, names[i]), names[i], maximum)
  }

  predicate DetailValid(v: Option<Json>, name: string, maximum: Option<u64>) {
    v.Some? && !v.value.Null? ==>
      && v.value.Number?
      && (maximum.Some? ==> v.value.n <= maximum.value)
      && (name == "audio_tokens" ==> v.value.n == 0)
  }

  function ReadUsage(v: Json): Usage {
    Usage(
      AsNumber(Get(v, "prompt_tokens")),
      AsNumber(Get(v, "completion_tokens")),
      (var details := Get(v, "prompt_tokens_details"); if details.Some? then AsNumber(Get(details.value, "cached_tokens")) else None),
      AsNumber(Get(v, "cost_micros")),
      AsText(Get(v, "currency")))
  }

  predicate UsageValid(v: Json, usage: Usage) {
    && v.Object?
    && NumberOrNull(Get(v, "prompt_tokens")) && NumberOrNull(Get(v, "completion_tokens"))
    && NumberOrNull(Get(v, "total_tokens")) && NumberOrNull(Get(v, "cost_micros"))
    && (Get(v, "currency").Some? ==> Get(v, "currency").value.Null? || Get(v, "currency").value.Text?)
    && (usage.costMicros.Some? <==> usage.currency.Some?)
    && (usage.cached.Some? && usage.input.Some? ==> usage.cached.value <= usage.input.value)
    && (AsNumber(Get(v, "total_tokens")).Some? && usage.input.Some? && usage.output.Some? ==>
          usage.input.value + usage.output.value == AsNumber(Get(v, "total_tokens")).value)
    && DetailsValid(Get(v, "prompt_tokens_details"), ["cached_tokens", "audio_tokens"], usage.input)
    && DetailsValid(
         Get(v, "completion_tokens_details"),
         ["reasoning_tokens", "audio_tokens", "accepted_prediction_tokens", "rejected_prediction_tokens"],
         usage.output)
  }

  /** Reported usage: absent is unreported, and what is reported must be consistent. */
  function ParseUsage(v: Option<Json>): (r: Option<Usage>)
    ensures NonNull(v).None? ==> r == Some(NO_USAGE)
    ensures r.Some? ==>
              && (r.value.costMicros.Some? <==> r.value.currency.Some?)
              && (r.value.cached.Some? && r.value.input.Some? ==> r.value.cached.value <= r.value.input.value)
              && (v.Some? && AsNumber(Get(v.value, "total_tokens")).Some? && r.value.input.Some? && r.value.output.Some? ==>
                    AsNumber(Get(v.value, "total_tokens")).value == r.value.input.value + r.value.output.value)
  {
    if NonNull(v).None? then Some(NO_USAGE)
    else if UsageValid(v.value, ReadUsage(v.value)) then Some(ReadUsage(v.value)) else None
  }

  function NumberOrNullJson(v: Option<u64>): Json { if v.Some? then Number(v.value) else Null }

  function TextOrNull(v: Option<string>): Json { if v.Some? then Text(v.value) else Null }

  /** Usage as a provider reports it. */
  function WriteUsage(u: Usage): Json {
    Object(map[
      "prompt_tokens" := NumberOrNullJson(u.input),
      "completion_tokens" := NumberOrNullJson(u.output),
      "prompt_tokens_details" := Object(map["cached_tokens" := NumberOrNullJson(u.cached)]),
      "cost_micros" := NumberOrNullJson(u.costMicros),
      "currency" := TextOrNull(u.currency)])
  }

  /** Consistent usage is read back, each figure under its own name. */
  lemma UsageReadsBack(u: Usage)
    requires u.costMicros.Some? <==> u.currency.Some?
    requires u.cached.Some? && u.input.Some? ==> u.cached.value <= u.input.value
    ensures ParseUsage(Some(WriteUsage(u))) == Some(u)
  {
    var v := WriteUsage(u);
    assert Get(v, "prompt_tokens") == Some(NumberOrNullJson(u.input)) && Get(v, "completion_tokens") == Some(NumberOrNullJson(u.output));
    assert Get(v, "cost_micros") == Some(NumberOrNullJson(u.costMicros)) && Get(v, "currency") == Some(TextOrNull(u.currency));
    assert Get(v, "total_tokens") == None && Get(v, "completion_tokens_details") == None;
    var details := Object(map["cached_tokens" := NumberOrNullJson(u.cached)]);
    assert Get(v, "prompt_tokens_details") == Some(details);
    assert Get(details, "cached_tokens") == Some(NumberOrNullJson(u.cached)) && Get(details, "audio_tokens") == None;
    assert ReadUsage(v) == u;
  }

  // ---- Responses ----

  datatype ToolCall = ToolCall(id: string, name: string, arguments: Json)

  datatype Metadata = Metadata(id: Option<Json>, model: Option<Json>, usage: Option<Json>)

  datatype Response = Response(
    text: string, structured: Option<Json>, calls: seq<ToolCall>, finish: Finish, usage: Usage, metadata: Option<Metadata>)

  const MAX_TEXT_BYTES: nat := 1_048_576
  const MAX_TOOL_CALLS: nat := 128

  function OrNull(v: Option<Json>): Json { if v.Some? then v.value else Null }

  function MetadataJson(m: Metadata): Json {
    Object(map["id" := OrNull(m.id), "model" := OrNull(m.model), "usage" := OrNull(m.usage)])
  }

  /** A bounded document parsed from text. */
  function ParseBounded(rules: Rules, text: string): Option<Json> {
    var v := rules.parse(text);
    if v.Some? && rules.bounded(v.value) then v else None
  }

  /** One tool call from its identity, name and argument text. */
  function BuildCall(rules: Rules, id: string, name: string, arguments: string): Option<ToolCall> {
    var parsed := ParseBounded(rules, arguments);
    if parsed.Some? && rules.safeName(id) && rules.safeName(name) then Some(ToolCall(id, name, parsed.value)) else None
  }

  /** Structured output, when asked for and there is text: `Some(None)` is none, `None` an error. */
  function Structured(rules: Rules, text: string, requested: bool): Option<Option<Json>> {
    if requested && text != "" then
      var v := ParseBounded(rules, text);
      if v.Some? then Some(v) else None
    else Some(None)
  }

  /** The bounds of a complete response. */
  function Bounded(rules: Rules, r: Response): Option<Response> {
    if |r.text| <= MAX_TEXT_BYTES && |r.calls| <= MAX_TOOL_CALLS
       && (r.usage.costMicros.Some? <==> r.usage.currency.Some?)
       && (r.usage.currency.Some? ==> rules.currency(r.usage.currency.value))
    then Some(r) else None
  }

  // ---- One whole message ----

  datatype Call = Call(id: string, name: string, arguments: string)

  /** What a whole message says, absent and null metadata being none. */
  datatype Message = Message(
    content: string, calls: seq<Call>, reason: Option<string>, id: Option<Json>, model: Option<Json>, usage: Option<Json>)

  function ReadCall(v: Json): Option<Call> {
    var id := AsText(Get(v, "id"));
    var function_ := Get(v, "function");
    if id.None? || function_.None? || !function_.value.Object? then None
    else
      var name := AsText(Get(function_.value, "name"));
      var arguments := AsText(Get(function_.value, "arguments"));
      if name.None? || arguments.None? then None else Some(Call(id.value, name.value, arguments.value))
  }

  function ReadCalls(items: seq<Json>): Option<seq<Call>> {
    if items == [] then Some([])
    else
      var front := ReadCalls(items[..|items| - 1]);
      var last := ReadCall(items[|items| - 1]);
      if front.Some? && last.Some? then Some(front.value + [last.value]) else None
  }

  function BuildCalls(rules: Rules, calls: seq<Call>): Option<seq<ToolCall>> {
    if calls == [] then Some([])
    else
      var front := BuildCalls(rules, calls[..|calls| - 1]);
      var last := BuildCall(rules, calls[|calls| - 1].id, calls[|calls| - 1].name, calls[|calls| - 1].arguments);
      if front.Some? && last.Some? then Some(front.value + [last.value]) else None
  }

  /** The message of a whole completion document: exactly one choice with a valid assistant message. */
  function ReadMessage(value: Json): Option<Message> {
    var choices := AsArray(Get(value, "choices"));
    if choices.None? || |choices.value| != 1 then None
    else
      var message := Get(choices.value[0], "message");
      if message.None? || !message.value.Object? || !FieldsValid(message.value.fields) then None
      else
        var content := AsText(Get(message.value, "content"));
        var items := AsArray(Get(message.value, "tool_calls"));
        var calls := if items.Some? then ReadCalls(items.value) else Some([]);
        if calls.None? then None
        else Some(Message(
          if content.Some? then content.value else "", calls.value, AsText(Get(choices.value[0], "finish_reason")),
          NonNull(Get(value, "id")), NonNull(Get(value, "model")), NonNull(Get(value, "usage"))))
  }

  /** The response a message makes. Its metadata document is always present. */
  function MessageResponse(rules: Rules, m: Message, structuredRequested: bool): Option<Response> {
    var calls := BuildCalls(rules, m.calls);
    var usage := ParseUsage(m.usage);
    var structured := Structured(rules, m.content, structuredRequested);
    var metadata := Metadata(m.id, m.model, m.usage);
    if calls.None? || usage.None? || structured.None? || !rules.bounded(MetadataJson(metadata)) then None
    else Bounded(rules, Response(m.content, structured.value, calls.value, FinishOf(m.reason), usage.value, Some(metadata)))
  }

  /** The whole-message parser. */
  function WholeResponse(rules: Rules, value: Json, structuredRequested: bool): Option<Response> {
    var m := ReadMessage(value);
    if m.Some? then MessageResponse(rules, m.value, structuredRequested) else None
  }

  // ---- What the parser takes from a document, told from the sender's side ----

  function WriteCall(c: Call): Json {
    Object(map["id" := Text(c.id), "function" := Object(map["name" := Text(c.name), "arguments" := Text(c.arguments)])])
  }

  function WriteCalls(calls: seq<Call>): seq<Json> {
    seq(|calls|, i requires 0 <= i < |calls| => WriteCall(calls[i]))
  }

  function WriteChoiceOf(m: Message): Json {
    Object(map[
      "finish_reason" := TextOrNull(m.reason),
      "message" := Object(map["role" := Text("assistant"), "content" := Text(m.content), "tool_calls" := Array(WriteCalls(m.calls))])])
  }

  /** A whole completion document. */
  function WriteMessage(m: Message): Json {
    Object(map["id" := OrNull(m.id), "model" := OrNull(m.model), "usage" := OrNull(m.usage), "choices" := Array([WriteChoiceOf(m)])])
  }

  lemma WrittenCall(c: Call)
    ensures ReadCall(WriteCall(c)) == Some(c)
  {
  }

  lemma {:induction false} WrittenCalls(calls: seq<Call>)
    ensures ReadCalls(WriteCalls(calls)) == Some(calls)
  {
    hide ReadCall, WriteCall;
    if calls != [] {
      var last := |calls| - 1;
      WrittenCalls(calls[..last]);
      WrittenCall(calls[last]);
      assert WriteCalls(calls)[..last] == WriteCalls(calls[..last]);
      assert calls == calls[..last] + [calls[last]];
    }
  }

  lemma WrittenMessageChoice(m: Message)
    ensures var choice := WriteChoiceOf(m);
            && AsText(Get(choice, "finish_reason")) == m.reason
            && Get(choice, "message").Some? && Get(choice, "message").value.Object?
            && var message := Get(choice, "message").value;
            && FieldsValid(message.fields) && AsText(Get(message, "content")) == Some(m.content)
            && AsArray(Get(message, "tool_calls")) == Some(WriteCalls(m.calls))
  {
    hide WriteCalls;
  }

  /** A document says what its message says. */
  lemma MessageReadsBack(m: Message)
    requires m.id != Some(Null) && m.model != Some(Null) && m.usage != Some(Null)
    ensures ReadMessage(WriteMessage(m)) == Some(m)
  {
    hide ReadCalls, WriteCalls, WriteChoiceOf, FieldsValid;
    WrittenCalls(m.calls);
    WrittenMessageChoice(m);
    assert AsArray(Get(WriteMessage(m), "choices")) == Some([WriteChoiceOf(m)]);
  }

  /** A field that carries something and is none of the three, a role that is not the assistant's or
      content that is not text: a message with any of them is no message. */
  ghost predicate Foreign(fields: map<string, Json>) {
    || (exists key :: key in fields && !fields[key].Null? && key != "role" && key != "content" && key != "tool_calls")
    || ("role" in fields && !fields["role"].Null? && fields["role"] != Text("assistant"))
    || ("content" in fields && !fields["content"].Null? && !fields["content"].Text?)
  }

  lemma FieldsExactly(fields: map<string, Json>)
    ensures FieldsValid(fields) <==> !Foreign(fields)
  {
    assert forall key :: key in ["role", "content", "tool_calls"] <==> key == "role" || key == "content" || key == "tool_calls";
  }

  /** A document is refused when it does not have exactly one choice, has no message, or its message is
      foreign or has a call without identity, name or arguments. */
  lemma MessageRefused(value: Json, choices: seq<Json>)
    requires AsArray(Get(value, "choices")) == Some(choices)
    requires || |choices| != 1
             || Get(choices[0], "message").None? || !Get(choices[0], "message").value.Object?
             || Foreign(Get(choices[0], "message").value.fields)
    ensures ReadMessage(value).None?
  {
    hide ReadCalls, FieldsValid, Foreign;
    if |choices| == 1 && Get(choices[0], "message").Some? && Get(choices[0], "message").value.Object? {
      FieldsExactly(Get(choices[0], "message").value.fields);
    }
  }

  /** A detail that exceeds its total, or audio. */
  predicate BadDetail(details: Option<Json>, name: string, total: Option<u64>) {
    && details.Some? && Get(details.value, name).Some? && Get(details.value, name).value.Number?
    && var n := Get(details.value, name).value.n;
       (name == "audio_tokens" && n != 0) || (total.Some? && n > total.value)
  }

  /** Reported usage is refused when a detail exceeds its total or audio was used. */
  lemma UsageRefused(v: Json, name: string)
    requires || (name in {"cached_tokens", "audio_tokens"}
                 && BadDetail(Get(v, "prompt_tokens_details"), name, AsNumber(Get(v, "prompt_tokens"))))
             || (name in {"reasoning_tokens", "audio_tokens", "accepted_prediction_tokens", "rejected_prediction_tokens"}
                 && BadDetail(Get(v, "completion_tokens_details"), name, AsNumber(Get(v, "completion_tokens"))))
    ensures ParseUsage(Some(v)).None?
  {
    var prompt := ["cached_tokens", "audio_tokens"];
    var completion := ["reasoning_tokens", "audio_tokens", "accepted_prediction_tokens", "rejected_prediction_tokens"];
    assert prompt[0] == "cached_tokens" && prompt[1] == "audio_tokens";
    assert completion[0] == "reasoning_tokens" && completion[1] == "audio_tokens";
    assert completion[2] == "accepted_prediction_tokens" && completion[3] == "rejected_prediction_tokens";
  }

  /** The text parses to a document within bounds. */
  predicate Parses(rules: Rules, text: string) { rules.parse(text).Some? && rules.bounded(rules.parse(text).value) }

  /** Every part of a message is acceptable. */
  ghost predicate Acceptable(rules: Rules, m: Message, structuredRequested: bool) {
    && |m.content| <= 1_048_576 && |m.calls| <= 128
    && (forall i :: 0 <= i < |m.calls| ==>
          rules.safeName(m.calls[i].id) && rules.safeName(m.calls[i].name) && Parses(rules, m.calls[i].arguments))
    && (structuredRequested && m.content != "" ==> Parses(rules, m.content))
    && ParseUsage(m.usage).Some? && (ParseUsage(m.usage).value.currency.Some? ==> rules.currency(ParseUsage(m.usage).value.currency.value))
    && rules.bounded(MetadataJson(Metadata(m.id, m.model, m.usage)))
  }

  lemma {:induction false} CallsTell(rules: Rules, calls: seq<Call>)
    ensures BuildCalls(rules, calls).Some? <==>
              forall i :: 0 <= i < |calls| ==> rules.safeName(calls[i].id) && rules.safeName(calls[i].name) && Parses(rules, calls[i].arguments)
    ensures BuildCalls(rules, calls).Some? ==>
              && |BuildCalls(rules, calls).value| == |calls|
              && forall i :: 0 <= i < |calls| ==>
                   BuildCalls(rules, calls).value[i].id == calls[i].id && BuildCalls(rules, calls).value[i].name == calls[i].name
                   && Some(BuildCalls(rules, calls).value[i].arguments) == rules.parse(calls[i].arguments)
  {
    if calls != [] {
      var front := calls[..|calls| - 1];
      CallsTell(rules, front);
      assert forall i :: 0 <= i < |front| ==> front[i] == calls[i];
    }
  }

  /** A message yields a response exactly when all of it is acceptable: its own text, every call with its
      identity, name and parsed arguments in order, the parsed text where structure was asked for, its
      finish reason, its usage and its metadata. */
  lemma ResponseTells(rules: Rules, m: Message, structuredRequested: bool)
    ensures MessageResponse(rules, m, structuredRequested).Some? <==> Acceptable(rules, m, structuredRequested)
    ensures MessageResponse(rules, m, structuredRequested).Some? ==>
              var r := MessageResponse(rules, m, structuredRequested).value;
              && r.text == m.content && r.finish == FinishOf(m.reason) && Some(r.usage) == ParseUsage(m.usage)
              && r.metadata == Some(Metadata(m.id, m.model, m.usage))
              && r.structured == (if structuredRequested && m.content != "" then rules.parse(m.content) else None)
              && |r.calls| == |m.calls|
              && forall i :: 0 <= i < |m.calls| ==>
                   r.calls[i].id == m.calls[i].id && r.calls[i].name == m.calls[i].name
                   && Some(r.calls[i].arguments) == rules.parse(m.calls[i].arguments)
  {
    hide ParseUsage, BuildCalls, FinishOf;
    CallsTell(rules, m.calls);
  }
}
