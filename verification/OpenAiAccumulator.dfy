/** The streaming accumulator as it runs: an object that takes one event after another. */
module OpenAiAccumulator {
  import opened Prelude
  import opened OpenAiMessage
  import opened OpenAiStream

  const DONE: string := "[DONE]"

  /** The tools held are exactly the indexes 0 to n-1, each what its pieces add up to. */
  ghost predicate ToolsAre(tools: map<nat, Tool>, p: seq<Piece>) {
    && (forall i: nat :: i in tools <==> i < ToolCount(p))
    && (forall i: nat :: i in tools ==> tools[i] == ToolAt(p, i))
  }

  lemma {:induction false} ToolsSize(tools: map<nat, Tool>, p: seq<Piece>)
    requires ToolsAre(tools, p)
    ensures |tools| == ToolCount(p)
  {
    assert tools.Keys == Below(ToolCount(p));
  }

  ghost function Below(n: nat): (s: set<nat>)
    ensures |s| == n && forall i: nat :: i in s <==> i < n
  {
    if n == 0 then {} else Below(n - 1) + {n - 1}
  }

  /** A tool after one more piece of its index. */
  function Extended(tool: Tool, q: Piece): Tool {
    Tool(
      if q.id.Some? then q.id else tool.id,
      if q.name.Some? then q.name else tool.name,
      tool.arguments + (if q.arguments.Some? then q.arguments.value else ""),
      false)
  }

  lemma OneMorePiece(p: seq<Piece>, q: Piece, i: nat)
    requires q.index.Some? && q.index.value <= ToolCount(p)
    ensures ToolCount(p + [q]) == if q.index.value == ToolCount(p) then ToolCount(p) + 1 else ToolCount(p)
    ensures ToolAt(p + [q], i) == if q.index.value == i then Extended(ToolAt(p, i), q) else ToolAt(p, i)
  {
    assert (p + [q])[..|p|] == p;
  }

  lemma PieceAdded(tools: map<nat, Tool>, p: seq<Piece>, q: Piece)
    requires ToolsAre(tools, p) && q.index.Some? && q.index.value <= ToolCount(p)
    ensures var i := q.index.value;
            ToolsAre(tools[i := Extended(if i in tools then tools[i] else Tool(None, None, "", false), q)], p + [q])
  {
    hide ToolAt, ToolCount, Extended;
    forall i: nat
      ensures ToolCount(p + [q]) == if q.index.value == ToolCount(p) then ToolCount(p) + 1 else ToolCount(p)
      ensures ToolAt(p + [q], i) == if q.index.value == i then Extended(ToolAt(p, i), q) else ToolAt(p, i)
    {
      OneMorePiece(p, q, i);
    }
    if q.index.value !in tools {
      Untouched(p, q.index.value);
    }
  }

  /** Keeps the value seen first, and refuses another. */
  function Retain(retained: Option<Json>, observed: Option<Json>): Option<Option<Json>> {
    if observed.None? then Some(retained)
    else if retained.Some? && retained != observed then None
    else if retained.None? then Some(observed)
    else Some(retained)
  }

  lemma ChainStep(h: seq<Delta>, d: Delta)
    ensures TextOf(h + [d]) == TextOf(h) + (if d.content.Some? then d.content.value else "")
    ensures Contents(h + [d]) == Contents(h) + (if d.content.Some? then [d.content.value] else [])
    ensures ReasonOf(h + [d]) == if d.reason.Some? then d.reason else ReasonOf(h)
    ensures PiecesOf(h + [d]) == PiecesOf(h) + d.pieces
    ensures forall f :: Retained(h + [d], f) == if Retained(h, f).Some? then Retained(h, f) else Stated(d, f)
    ensures Accepted(h + [d]) <==> Accepted(h) && Fits(h, d)
  {
    assert (h + [d])[..|h|] == h;
    if d.content.Some? {
      assert Contents(h + [d]) == Contents(h) + [d.content.value];
      assert (Contents(h) + [d.content.value])[..|Contents(h)|] == Contents(h);
    } else {
      assert Contents(h + [d]) == Contents(h) + [] == Contents(h);
      assert TextOf(h) + "" == TextOf(h);
    }
  }

  /** Keeping the first value is what the chain retains, and it fails exactly when the event disagrees. */
  lemma RetainFollows(h: seq<Delta>, d: Delta, f: Field)
    ensures Retain(Retained(h, f), Stated(d, f)).Some? <==> FieldFits(h, d, f)
    ensures Retain(Retained(h, f), Stated(d, f)).Some? ==> Retain(Retained(h, f), Stated(d, f)).value == Retained(h + [d], f)
  {
    assert (h + [d])[..|h|] == h;
  }

  datatype Kept = Kept(id: Option<Json>, model: Option<Json>, raw: Option<Json>, usage: Usage)

  ghost predicate KeptFrom(k: Kept, h: seq<Delta>) {
    && k.id == Retained(h, Id) && k.model == Retained(h, Model) && k.raw == Retained(h, UsageField)
    && ParseUsage(k.raw) == Some(k.usage)
  }

  class StreamState {
    var text: string
    var tools: map<nat, Tool>
    var finish: Finish
    var usage: Usage
    var rawUsage: Option<Json>
    var responseId: Option<Json>
    var responseModel: Option<Json>
    var done: bool
    var sawPayload: bool
    ghost var history: seq<Delta>
    ghost var fragments: seq<string>

    /** Every field is what the accepted events add up to. */
    ghost predicate Valid()
      reads this
    {
      && Accepted(history)
      && text == TextOf(history) && fragments == Contents(history)
      && ToolsAre(tools, PiecesOf(history))
      && finish == FinishOf(ReasonOf(history))
      && rawUsage == Retained(history, UsageField)
      && ParseUsage(rawUsage) == Some(usage)
      && responseId == Retained(history, Id) && responseModel == Retained(history, Model)
      && (sawPayload <==> history != [])
    }

    constructor ()
      ensures Valid() && history == [] && fragments == [] && !done
    {
      text, tools, finish, usage := "", map[], UnknownFinish, NO_USAGE;
      rawUsage, responseId, responseModel := None, None, None;
      done, sawPayload := false, false;
      history, fragments := [], [];
    }

    /** Takes one event. `reported` is whether the reporter takes a fragment of text. It is accepted
        exactly when the stream is open and the event ends it or agrees with everything before. */
    method Event(rules: Rules, data: string, reported: bool) returns (ok: bool)
      requires Valid()
      modifies this
      ensures ok ==> Valid()
      ensures ok <==>
                && !old(done)
                && (data == DONE || (rules.parse(data).Some? && Fits(old(history), ReadDelta(rules.parse(data).value))
                                     && (ReadDelta(rules.parse(data).value).content.Some? ==> reported)))
      ensures ok && data == DONE ==> done && history == old(history)
      ensures ok && data != DONE ==> !done && history == old(history) + [ReadDelta(rules.parse(data).value)]
    {
      hide ReadDelta, ParseUsage, TextOf, Contents, Accepted, ReasonOf, FinishOf, Retained, FieldFits, PiecesFit, PiecesOf, ToolsAre;
      if done { return false; }
      if data == DONE {
        done := true;
        return true;
      }
      var parsed := rules.parse(data);
      if parsed.None? { return false; }
      var delta := ReadDelta(parsed.value);
      ChainStep(history, delta);
      var kept := Keep(Kept(responseId, responseModel, rawUsage, usage), delta, history);
      if kept.None? || !delta.wellShaped { return false; }
      if delta.content.Some? && !reported { return false; }
      var fits, grown := AddPieces(tools, PiecesOf(history), delta.pieces);
      if !fits { return false; }
      Absorb(delta, kept.value, grown);
      return true;
    }

    /** Writes what an accepted event adds. */
    method Absorb(delta: Delta, kept: Kept, grown: map<nat, Tool>)
      requires Valid() && Fits(history, delta) && KeptFrom(kept, history + [delta]) && ToolsAre(grown, PiecesOf(history) + delta.pieces)
      modifies this
      ensures Valid() && history == old(history) + [delta] && done == old(done)
    {
      hide ParseUsage, Accepted, TextOf, Contents, ReasonOf, Retained, PiecesOf, ToolsAre, Fits;
      ChainStep(history, delta);
      sawPayload := true;
      responseId, responseModel, rawUsage, usage := kept.id, kept.model, kept.raw, kept.usage;
      if delta.reason.Some? {
        finish := FinishOf(delta.reason);
      }
      if delta.content.Some? {
        text := text + delta.content.value;
        fragments := fragments + [delta.content.value];
      }
      tools := grown;
      history := history + [delta];
    }

    /** Keeps identity, model and usage, each stated once or the same again. */
    static method Keep(before: Kept, delta: Delta, ghost h: seq<Delta>) returns (after: Option<Kept>)
      requires KeptFrom(before, h)
      ensures after.Some? <==>
                && FieldFits(h, delta, Id) && FieldFits(h, delta, Model) && FieldFits(h, delta, UsageField)
                && (delta.usage.Some? ==> ParseUsage(delta.usage).Some?)
      ensures after.Some? ==> KeptFrom(after.value, h + [delta])
    {
      hide ParseUsage, Retained, FieldFits;
      RetainFollows(h, delta, Id);
      RetainFollows(h, delta, Model);
      RetainFollows(h, delta, UsageField);
      var id := Retain(before.id, delta.id);
      var model := Retain(before.model, delta.model);
      if id.None? || model.None? { return None; }
      var raw := Retain(before.raw, delta.usage);
      if delta.usage.None? { return Some(Kept(id.value, model.value, raw.value, before.usage)); }
      var read := ParseUsage(delta.usage);
      if read.None? || raw.None? { return None; }
      return Some(Kept(id.value, model.value, raw.value, read.value));
    }

    /** Adds the pieces of one event, in order, to the tools. */
    static method AddPieces(tools: map<nat, Tool>, ghost p: seq<Piece>, pieces: seq<Piece>) returns (fits: bool, grown: map<nat, Tool>)
      requires ToolsAre(tools, p)
      ensures fits <==> PiecesFit(p, pieces)
      ensures fits ==> ToolsAre(grown, p + pieces)
    {
      hide ToolCount, ToolAt;
      grown := tools;
      assert p + pieces[..0] == p;
      for k := 0 to |pieces|
        invariant PiecesFit(p, pieces[..k]) && ToolsAre(grown, p + pieces[..k])
      {
        var q := pieces[k];
        ghost var sofar := p + pieces[..k];
        ToolsSize(grown, sofar);
        if q.index.None? || (q.index.value !in grown && q.index.value != |grown|) {
          assert !PieceFits(p + pieces[..k], pieces[k]);
          return false, grown;
        }
        var index := q.index.value;
        if index !in grown {
          Untouched(sofar, index);
        }
        var entry := if index in grown then grown[index] else Tool(None, None, "", false);
        if entry.finished { Unfinished(sofar, index); assert false; }
        if (q.id.Some? && entry.id.Some? && entry.id != q.id) || (q.name.Some? && entry.name.Some? && entry.name != q.name) {
          assert !PieceFits(p + pieces[..k], pieces[k]);
          return false, grown;
        }
        PieceAdded(grown, sofar, q);
        grown := grown[index := Extended(entry, q)];
        FitsMore(p, pieces, k);
        assert p + pieces[..k + 1] == sofar + [q];
      }
      assert pieces[..|pieces|] == pieces;
      return true, grown;
    }

    /** Finishes every tool in index order. */
    static method FinishTools(rules: Rules, tools: map<nat, Tool>, ghost p: seq<Piece>) returns (result: Option<seq<ToolCall>>)
      requires ToolsAre(tools, p)
      ensures result == FinishCalls(rules, p, ToolCount(p))
    {
      hide ToolAt, ToolCount, BuildCall;
      ToolsSize(tools, p);
      var calls: seq<ToolCall> := [];
      for i := 0 to |tools|
        invariant FinishCalls(rules, p, i) == Some(calls)
      {
        var entry := tools[i];
        if entry.id.None? || entry.name.None? {
          StuckCalls(rules, p, i + 1, |tools|);
          return None;
        }
        var call := BuildCall(rules, entry.id.value, entry.name.value, entry.arguments);
        if call.None? {
          StuckCalls(rules, p, i + 1, |tools|);
          return None;
        }
        calls := calls + [call.value];
      }
      return Some(calls);
    }

    /** Finishes the response once the stream has ended. */
    method Complete(rules: Rules, structuredRequested: bool) returns (result: Option<Response>)
      requires Valid()
      ensures result == if done then ChainResponse(rules, history, structuredRequested) else None
    {
      hide ParseUsage, TextOf, Contents, ToolsAre, ToolCount, ReasonOf, PiecesOf, FinishCalls, Structured, Bounded, Accepted, Retained;
      if !done || !sawPayload { return None; }
      var calls := FinishTools(rules, tools, PiecesOf(history));
      if calls.None? { return None; }
      var structured := Structured(rules, text, structuredRequested);
      if structured.None? { return None; }
      var metadata := if responseId.Some? || responseModel.Some? || rawUsage.Some?
                      then Some(Metadata(responseId, responseModel, rawUsage)) else None;
      if metadata.Some? && !rules.bounded(MetadataJson(metadata.value)) { return None; }
      return Bounded(rules, Response(text, structured.value, calls.value, finish, usage, metadata));
    }
  }

  /** The payload events of a stream, read one by one. */
  function Deltas(rules: Rules, events: seq<string>): Option<seq<Delta>> {
    if events == [] then Some([])
    else
      var front := Deltas(rules, events[..|events| - 1]);
      var last := rules.parse(events[|events| - 1]);
      if front.None? || last.None? || events[|events| - 1] == DONE then None else Some(front.value + [ReadDelta(last.value)])
  }

  /** What a stream of events yields: nothing unless its payloads can be read and only they are followed
      by the end marker. */
  function Collected(rules: Rules, events: seq<string>, structuredRequested: bool): Option<Response> {
    if events == [] || events[|events| - 1] != DONE then None
    else
      var h := Deltas(rules, events[..|events| - 1]);
      if h.None? then None else StreamResponse(rules, h.value, structuredRequested)
  }

  /** Runs a whole stream through the accumulator. */
  method Collect(rules: Rules, events: seq<string>, structuredRequested: bool) returns (result: Option<Response>, fragments: seq<string>)
    ensures result == Collected(rules, events, structuredRequested)
    ensures result.Some? ==> Concat(fragments) == result.value.text
  {
    hide ReadDelta, ParseUsage, TextOf, Fits, ChainResponse, Retained, PiecesOf, ToolsAre, ReasonOf, Contents;
    var state := new StreamState();
    assert events[..0] == [];
    fragments := [];
    for i := 0 to |events|
      invariant state.Valid()
      invariant state.done ==> i > 0 && events[i - 1] == DONE && Deltas(rules, events[..i - 1]) == Some(state.history)
      invariant !state.done ==> Deltas(rules, events[..i]) == Some(state.history)
      invariant fragments == state.fragments
    {
      ghost var before, ended := state.history, state.done;
      var ok := state.Event(rules, events[i], true);
      assert events[..i + 1][..i] == events[..i];
      if !ok {
        if ended {
          EndedBefore(rules, events, i, structuredRequested);
        } else {
          RejectedAt(rules, events, i, before, structuredRequested);
        }
        return None, fragments;
      }
      if events[i] != DONE {
        var content := ReadDelta(rules.parse(events[i]).value).content;
        TextGrows(state.history[..|state.history| - 1], ReadDelta(rules.parse(events[i]).value));
        fragments := fragments + (if content.Some? then [content.value] else []);
      }
    }
    assert events[..|events|] == events;
    result := state.Complete(rules, structuredRequested);
    Sound(rules, state.history, structuredRequested);
  }

  /** A stream whose events split a message and end properly collects to what the whole-message parser
      makes of it, or both fail. */
  lemma SplitStreamAgrees(rules: Rules, events: seq<string>, value: Json, structuredRequested: bool)
    requires ReadMessage(value).Some? && Deltas(rules, events).Some?
    requires Splits(Deltas(rules, events).value, ReadMessage(value).value)
    requires rules.bounded(MetadataJson(Metadata(None, None, None)))
    ensures WithoutMetadata(Collected(rules, events + [DONE], structuredRequested))
            == WithoutMetadata(WholeResponse(rules, value, structuredRequested))
    ensures WholeResponse(rules, value, structuredRequested).Some? ==>
              (Collected(rules, events + [DONE], structuredRequested) == WholeResponse(rules, value, structuredRequested)
               <==> !Anonymous(ReadMessage(value).value))
  {
    hide ReadMessage, Splits, StreamResponse, WholeResponse, Deltas;
    assert (events + [DONE])[..|events|] == events;
    StreamAgreesWithWhole(rules, Deltas(rules, events).value, value, structuredRequested);
  }

  /** So does a stream whose events are those of a message cut in any way. */
  lemma CutStreamAgrees(rules: Rules, events: seq<string>, parts: seq<Part>, value: Json, structuredRequested: bool)
    requires ReadMessage(value).Some? && Cuts(parts, ReadMessage(value).value)
    requires Deltas(rules, events) == Some(EventsFor(ReadMessage(value).value, parts))
    requires rules.bounded(MetadataJson(Metadata(None, None, None)))
    ensures WithoutMetadata(Collected(rules, events + [DONE], structuredRequested))
            == WithoutMetadata(WholeResponse(rules, value, structuredRequested))
    ensures WholeResponse(rules, value, structuredRequested).Some? ==>
              (Collected(rules, events + [DONE], structuredRequested) == WholeResponse(rules, value, structuredRequested)
               <==> !Anonymous(ReadMessage(value).value))
  {
    hide ReadMessage, Splits, Cuts, Collected, WholeResponse, Deltas, EventsFor;
    EveryCuttingSplits(ReadMessage(value).value, parts);
    SplitStreamAgrees(rules, events, value, structuredRequested);
  }

  /** Every cutting can be sent: texts that parse to the documents of its events are read as them. */
  lemma SentCutIsRead(rules: Rules, events: seq<string>, parts: seq<Part>, value: Json)
    requires ReadMessage(value).Some? && Sends(rules, events, EventsFor(ReadMessage(value).value, parts))
    ensures Deltas(rules, events) == Some(EventsFor(ReadMessage(value).value, parts))
  {
    hide ReadMessage, Deltas, EventsFor, Sends;
    var m := ReadMessage(value).value;
    MessageStatesNoNull(value);
    EventsAreWritable(m, parts);
    SentIsRead(rules, events, EventsFor(m, parts));
  }

  /** The payload texts parse to the documents of these events, none being the end marker. */
  ghost predicate Sends(rules: Rules, events: seq<string>, h: seq<Delta>) {
    |events| == |h| && forall k :: 0 <= k < |h| ==> events[k] != DONE && rules.parse(events[k]) == Some(WriteDelta(h[k]))
  }

  /** What is sent is read. */
  lemma {:induction false} SentIsRead(rules: Rules, events: seq<string>, h: seq<Delta>)
    requires Sends(rules, events, h) && forall k :: 0 <= k < |h| ==> Writable(h[k])
    ensures Deltas(rules, events) == Some(h)
  {
    hide ReadDelta, WriteDelta, Writable;
    if events != [] {
      var last := |events| - 1;
      SentIsRead(rules, events[..last], h[..last]);
      ReadsBack(h[last]);
      assert h == h[..last] + [h[last]];
    }
  }

  lemma MessageStatesNoNull(value: Json)
    requires ReadMessage(value).Some?
    ensures var m := ReadMessage(value).value; m.id != Some(Null) && m.model != Some(Null) && m.usage != Some(Null)
  {
    hide ReadCalls;
  }

  lemma EventsAreWritable(m: Message, parts: seq<Part>)
    requires m.id != Some(Null) && m.model != Some(Null) && m.usage != Some(Null)
    ensures forall k :: 0 <= k < |parts| ==> Writable(EventsFor(m, parts)[k])
  {
    hide PiecesFor, SlicesOf, EventsFor;
    CuttingEvents(m, parts);
  }

  // ---- Where the metadata differs ----

  const ANONYMOUS_MESSAGE: Json :=
    Object(map["choices" := Array([Object(map["message" := Object(map["content" := Text("hi")])])])])

  const ANONYMOUS_EVENT: Json :=
    Object(map["choices" := Array([Object(map["delta" := Object(map["content" := Text("hi")])])])])

  lemma AnonymousMessageReads()
    ensures ReadMessage(ANONYMOUS_MESSAGE) == Some(Message("hi", [], None, None, None, None))
  {
    var message := Object(map["content" := Text("hi")]);
    var choice := Object(map["message" := message]);
    assert AsArray(Get(ANONYMOUS_MESSAGE, "choices")) == Some([choice]);
    assert FieldsValid(message.fields);
  }

  lemma AnonymousEventReads()
    ensures ReadDelta(ANONYMOUS_EVENT) == Delta(None, None, None, true, None, Some("hi"), [])
  {
    var delta := Object(map["content" := Text("hi")]);
    var choice := Object(map["delta" := delta]);
    assert AsArray(Get(ANONYMOUS_EVENT, "choices")) == Some([choice]);
    assert FieldsValid(delta.fields);
  }

  lemma OneEventChain(rules: Rules, d: Delta)
    requires d == Delta(None, None, None, true, None, Some("hi"), [])
    ensures StreamResponse(rules, [d], false) == Some(Response("hi", None, [], UnknownFinish, NO_USAGE, None))
  {
    var h := [d];
    assert h[..0] == [] && h[0] == d;
    assert Contents(h) == [] + ["hi"] == ["hi"];
    ConcatOne("hi");
    assert PiecesOf(h) == [] + [] == [];
    assert ReasonOf(h) == None;
    assert forall f :: Retained(h, f) == None;
    assert PiecesFit([], []);
    assert PiecesOf([]) == [] && Fits([], d);
    assert Accepted([]) && Accepted(h);
  }

  /** An input on which they differ: a message that states no identity, model or usage. The stream
      collects to no metadata document where the whole-message parser makes one of nulls. */
  lemma AnonymousStreamDiffers(rules: Rules, event: string)
    requires rules.bounded(MetadataJson(Metadata(None, None, None)))
    requires event != DONE && rules.parse(event) == Some(ANONYMOUS_EVENT)
    ensures Collected(rules, [event, DONE], false) == Some(Response("hi", None, [], UnknownFinish, NO_USAGE, None))
    ensures WholeResponse(rules, ANONYMOUS_MESSAGE, false)
            == Some(Response("hi", None, [], UnknownFinish, NO_USAGE, Some(Metadata(None, None, None))))
  {
    hide ReadDelta, ReadMessage, StreamResponse;
    AnonymousMessageReads();
    AnonymousEventReads();
    var d := ReadDelta(ANONYMOUS_EVENT);
    OneEventChain(rules, d);
    var events := [event, DONE];
    assert events[..1] == [event] && [event][..0] == [];
    assert Deltas(rules, [event][..0]) == Some([]);
    assert [] + [d] == [d];
    assert Deltas(rules, [event]) == Some([d]);
  }

  lemma {:induction false} DeltasOfPrefix(rules: Rules, events: seq<string>, k: nat)
    requires Deltas(rules, events).Some? && k <= |events|
    ensures Deltas(rules, events[..k]).Some? && |Deltas(rules, events).value| == |events|
    ensures Deltas(rules, events[..k]).value == Deltas(rules, events).value[..k]
    ensures k < |events| ==> events[k] != DONE && rules.parse(events[k]).Some?
                             && Deltas(rules, events).value[k] == ReadDelta(rules.parse(events[k]).value)
    decreases |events|
  {
    hide ReadDelta;
    if k == |events| {
      assert events[..k] == events;
      if k > 0 {
        DeltasOfPrefix(rules, events[..k - 1], k - 1);
      }
    } else {
      var front := events[..|events| - 1];
      DeltasOfPrefix(rules, front, if k < |front| then k else |front|);
      assert k <= |front| && front[..k] == events[..k];
    }
  }

  lemma {:induction false} AcceptedPrefix(h: seq<Delta>, k: nat)
    requires Accepted(h) && k <= |h|
    ensures Accepted(h[..k]) && (k < |h| ==> Fits(h[..k], h[k]))
    decreases |h|
  {
    hide Fits;
    if k == |h| {
      assert h[..k] == h;
    } else if k < |h| - 1 {
      AcceptedPrefix(h[..|h| - 1], k);
      assert h[..|h| - 1][..k] == h[..k];
    }
  }

  lemma EndedBefore(rules: Rules, events: seq<string>, i: nat, structuredRequested: bool)
    requires 0 < i < |events| && events[i - 1] == DONE
    ensures Collected(rules, events, structuredRequested).None?
  {
    var payload := events[..|events| - 1];
    if Deltas(rules, payload).Some? {
      DeltasOfPrefix(rules, payload, i - 1);
    }
  }

  lemma RejectedAt(rules: Rules, events: seq<string>, i: nat, h: seq<Delta>, structuredRequested: bool)
    requires i < |events| && Deltas(rules, events[..i]) == Some(h) && events[i] != DONE
    requires rules.parse(events[i]).None? || !Fits(h, ReadDelta(rules.parse(events[i]).value))
    ensures Collected(rules, events, structuredRequested).None?
  {
    hide Fits, ReadDelta;
    var payload := events[..|events| - 1];
    if i < |payload| && Deltas(rules, payload).Some? {
      DeltasOfPrefix(rules, payload, i);
      assert payload[..i] == events[..i];
      if Accepted(Deltas(rules, payload).value) {
        AcceptedPrefix(Deltas(rules, payload).value, i);
      }
    }
  }

  lemma TextGrows(h: seq<Delta>, d: Delta)
    ensures Contents(h + [d]) == Contents(h) + (if d.content.Some? then [d.content.value] else [])
  {
    ChainStep(h, d);
  }

  lemma Sound(rules: Rules, h: seq<Delta>, structuredRequested: bool)
    ensures ChainResponse(rules, h, structuredRequested).Some? ==>
              ChainResponse(rules, h, structuredRequested).value.text == Concat(Contents(h))
  {
  }

  lemma Untouched(p: seq<Piece>, i: nat)
    requires i >= ToolCount(p)
    ensures ToolAt(p, i) == Tool(None, None, "", false)
  {
    EmptyToolBeyond(p, i);
  }

  lemma {:induction false} Unfinished(p: seq<Piece>, i: nat)
    ensures !ToolAt(p, i).finished
  {
    if p != [] {
      Unfinished(p[..|p| - 1], i);
    }
  }

  lemma FitsMore(p: seq<Piece>, pieces: seq<Piece>, k: nat)
    requires k < |pieces| && PiecesFit(p, pieces[..k]) && PieceFits(p + pieces[..k], pieces[k])
    ensures PiecesFit(p, pieces[..k + 1])
  {
    hide PieceFits;
    var more := pieces[..k + 1];
    forall j | 0 <= j < |more|
      ensures PieceFits(p + more[..j], more[j])
    {
      assert pieces[..k + 1][..j] == pieces[..j];
      if j < k {
        assert PieceFits(p + pieces[..k][..j], pieces[..k][j]);
        assert pieces[..k][..j] == pieces[..j];
      }
    }
  }

  lemma {:induction false} StuckCalls(rules: Rules, p: seq<Piece>, i: nat, n: nat)
    requires i <= n && FinishCalls(rules, p, i).None?
    ensures FinishCalls(rules, p, n).None?
    decreases n
  {
    if i < n {
      StuckCalls(rules, p, i, n - 1);
    }
  }
}
