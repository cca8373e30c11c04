/** The delta accumulator: a chain of streamed events that adds up to one assistant message. */
module OpenAiStream {
  import opened Prelude
  import opened OpenAiMessage

  // ---- What one event says ----

  datatype Piece = Piece(index: Option<u64>, id: Option<string>, name: Option<string>, arguments: Option<string>)

  /** The part of an event the accumulator reads. `wellShaped` is whether it has at most one choice, of
      index 0 when stated, and only valid message fields. */
  datatype Delta = Delta(
    id: Option<Json>, model: Option<Json>, usage: Option<Json>,
    wellShaped: bool, reason: Option<string>, content: Option<string>, pieces: seq<Piece>)

  function ReadPiece(v: Json): Piece {
    var function_ := Get(v, "function");
    Piece(
      AsNumber(Get(v, "index")), AsText(Get(v, "id")),
      if function_.Some? then AsText(Get(function_.value, "name")) else None,
      if function_.Some? then AsText(Get(function_.value, "arguments")) else None)
  }

  function ReadPieces(items: seq<Json>): (pieces: seq<Piece>)
    ensures |pieces| == |items| && forall i :: 0 <= i < |items| ==> pieces[i] == ReadPiece(items[i])
  {
    if items == [] then [] else ReadPieces(items[..|items| - 1]) + [ReadPiece(items[|items| - 1])]
  }

  function ReadDelta(value: Json): Delta {
    var id, model, usage := NonNull(Get(value, "id")), NonNull(Get(value, "model")), NonNull(Get(value, "usage"));
    var choices := AsArray(Get(value, "choices"));
    if choices.None? || choices.value == [] then Delta(id, model, usage, true, None, None, [])
    else
      var choice := choices.value[0];
      var index := Get(choice, "index");
      var single := |choices.value| == 1 && (index.Some? ==> index.value == Number(0));
      var delta := Get(choice, "delta");
      if delta.None? || !delta.value.Object? then
        Delta(id, model, usage, single, AsText(Get(choice, "finish_reason")), None, [])
      else
        var items := AsArray(Get(delta.value, "tool_calls"));
        Delta(
          id, model, usage, single && FieldsValid(delta.value.fields), AsText(Get(choice, "finish_reason")),
          AsText(Get(delta.value, "content")), if items.Some? then ReadPieces(items.value) else [])
  }

  // ---- The document of an event ----

  function WritePiece(q: Piece): Json {
    Object(map[
      "index" := if q.index.Some? then Number(q.index.value) else Null,
      "id" := TextOrNull(q.id),
      "function" := Object(map["name" := TextOrNull(q.name), "arguments" := TextOrNull(q.arguments)])])
  }

  function WriteChoice(d: Delta): Json {
    Object(map[
      "index" := Number(0),
      "finish_reason" := TextOrNull(d.reason),
      "delta" := Object(map[
        "content" := TextOrNull(d.content),
        "tool_calls" := Array(seq(|d.pieces|, i requires 0 <= i < |d.pieces| => WritePiece(d.pieces[i])))])])
  }

  /** A document that says what the event says. */
  function WriteDelta(d: Delta): Json {
    Object(map["id" := OrNull(d.id), "model" := OrNull(d.model), "usage" := OrNull(d.usage), "choices" := Array([WriteChoice(d)])])
  }

  /** A null is the same as nothing stated, so it is no statement. */
  predicate Writable(d: Delta) {
    d.wellShaped && d.id != Some(Null) && d.model != Some(Null) && d.usage != Some(Null)
  }

  lemma WrittenPiece(q: Piece)
    ensures ReadPiece(WritePiece(q)) == q
  {
  }

  lemma WrittenPieces(p: seq<Piece>)
    ensures ReadPieces(seq(|p|, i requires 0 <= i < |p| => WritePiece(p[i]))) == p
  {
    hide ReadPiece, WritePiece;
    var items := seq(|p|, i requires 0 <= i < |p| => WritePiece(p[i]));
    forall i | 0 <= i < |p|
      ensures ReadPiece(items[i]) == p[i]
    {
      WrittenPiece(p[i]);
    }
    assert ReadPieces(items) == p;
  }

  /** Reading the document of an event gives the event back. */
  lemma ReadsBack(d: Delta)
    requires Writable(d)
    ensures ReadDelta(WriteDelta(d)) == d
  {
    hide ReadPieces, WritePiece, WriteChoice, FieldsValid;
    WrittenPieces(d.pieces);
    WrittenChoice(d);
    assert AsArray(Get(WriteDelta(d), "choices")) == Some([WriteChoice(d)]);
  }

  lemma WrittenChoice(d: Delta)
    ensures var choice := WriteChoice(d);
            && Get(choice, "index") == Some(Number(0)) && AsText(Get(choice, "finish_reason")) == d.reason
            && Get(choice, "delta").Some? && Get(choice, "delta").value.Object?
            && var delta := Get(choice, "delta").value;
            && FieldsValid(delta.fields) && AsText(Get(delta, "content")) == d.content
            && AsArray(Get(delta, "tool_calls")) == Some(seq(|d.pieces|, i requires 0 <= i < |d.pieces| => WritePiece(d.pieces[i])))
  {
    hide WritePiece;
  }

  /** An event is malformed when it has more than one choice, a choice of another index, or foreign
      message fields. */
  lemma EventMalformed(value: Json, choices: seq<Json>)
    requires AsArray(Get(value, "choices")) == Some(choices) && choices != []
    requires || |choices| > 1
             || (Get(choices[0], "index").Some? && Get(choices[0], "index").value != Number(0))
             || (&& Get(choices[0], "delta").Some? && Get(choices[0], "delta").value.Object?
                 && Foreign(Get(choices[0], "delta").value.fields))
    ensures !ReadDelta(value).wellShaped
  {
    hide ReadPieces, FieldsValid, Foreign;
    if Get(choices[0], "delta").Some? && Get(choices[0], "delta").value.Object? {
      FieldsExactly(Get(choices[0], "delta").value.fields);
    }
  }

  // ---- What a chain of events adds up to ----

  function Contents(h: seq<Delta>): seq<string> {
    if h == [] then []
    else Contents(h[..|h| - 1]) + (if h[|h| - 1].content.Some? then [h[|h| - 1].content.value] else [])
  }

  function Concat(parts: seq<string>): string {
    if parts == [] then "" else Concat(parts[..|parts| - 1]) + parts[|parts| - 1]
  }

  function TextOf(h: seq<Delta>): string { Concat(Contents(h)) }

  /** The reason stated last. */
  function ReasonOf(h: seq<Delta>): Option<string> {
    if h == [] then None else if h[|h| - 1].reason.Some? then h[|h| - 1].reason else ReasonOf(h[..|h| - 1])
  }

  datatype Field = Id | Model | UsageField

  function Stated(d: Delta, f: Field): Option<Json> {
    match f case Id => d.id case Model => d.model case UsageField => d.usage
  }

  /** The value stated first. */
  function Retained(h: seq<Delta>, f: Field): Option<Json> {
    if h == [] then None
    else if Retained(h[..|h| - 1], f).Some? then Retained(h[..|h| - 1], f) else Stated(h[|h| - 1], f)
  }

  function PiecesOf(h: seq<Delta>): seq<Piece> {
    if h == [] then [] else PiecesOf(h[..|h| - 1]) + h[|h| - 1].pieces
  }

  /** One more than the greatest index, once every index follows on. */
  function ToolCount(p: seq<Piece>): nat {
    if p == [] then 0
    else
      var before := ToolCount(p[..|p| - 1]);
      var last := p[|p| - 1];
      if last.index.Some? && last.index.value >= before then last.index.value + 1 else before
  }

  datatype Tool = Tool(id: Option<string>, name: Option<string>, arguments: string, finished: bool)

  /** What the pieces of one index add up to. */
  function ToolAt(p: seq<Piece>, i: nat): Tool {
    if p == [] then Tool(None, None, "", false)
    else
      var before := ToolAt(p[..|p| - 1], i);
      var last := p[|p| - 1];
      if last.index != Some(i) then before
      else Tool(
        if last.id.Some? then last.id else before.id,
        if last.name.Some? then last.name else before.name,
        before.arguments + (if last.arguments.Some? then last.arguments.value else ""),
        false)
  }

  // ---- Which events continue a chain ----

  /** A piece continues a tool, or starts the next one, and repeats identity and name exactly. */
  predicate PieceFits(p: seq<Piece>, q: Piece) {
    && q.index.Some? && q.index.value <= ToolCount(p)
    && (q.id.Some? && ToolAt(p, q.index.value).id.Some? ==> q.id == ToolAt(p, q.index.value).id)
    && (q.name.Some? && ToolAt(p, q.index.value).name.Some? ==> q.name == ToolAt(p, q.index.value).name)
  }

  predicate PiecesFit(p: seq<Piece>, more: seq<Piece>) {
    forall k :: 0 <= k < |more| ==> PieceFits(p + more[..k], more[k])
  }

  predicate FieldFits(h: seq<Delta>, d: Delta, f: Field) {
    Stated(d, f).Some? && Retained(h, f).Some? ==> Stated(d, f) == Retained(h, f)
  }

  /** The accumulator accepts an event exactly when it agrees with the chain so far. */
  predicate Fits(h: seq<Delta>, d: Delta) {
    && d.wellShaped
    && FieldFits(h, d, Id) && FieldFits(h, d, Model) && FieldFits(h, d, UsageField)
    && (d.usage.Some? ==> ParseUsage(d.usage).Some?)
    && PiecesFit(PiecesOf(h), d.pieces)
  }

  predicate Accepted(h: seq<Delta>) {
    h == [] || (Accepted(h[..|h| - 1]) && Fits(h[..|h| - 1], h[|h| - 1]))
  }

  // ---- What a finished chain makes ----

  function FinishCalls(rules: Rules, p: seq<Piece>, n: nat): Option<seq<ToolCall>> {
    if n == 0 then Some([])
    else
      var front := FinishCalls(rules, p, n - 1);
      var tool := ToolAt(p, n - 1);
      if front.None? || tool.id.None? || tool.name.None? then None
      else
        var call := BuildCall(rules, tool.id.value, tool.name.value, tool.arguments);
        if call.Some? then Some(front.value + [call.value]) else None
  }

  function StreamMetadata(h: seq<Delta>): Option<Metadata> {
    var m := Metadata(Retained(h, Id), Retained(h, Model), Retained(h, UsageField));
    if m == Metadata(None, None, None) then None else Some(m)
  }

  /** The response of a chain that ended properly. */
  function ChainResponse(rules: Rules, h: seq<Delta>, structuredRequested: bool): Option<Response> {
    var p := PiecesOf(h);
    var calls := FinishCalls(rules, p, ToolCount(p));
    var usage := ParseUsage(Retained(h, UsageField));
    var structured := Structured(rules, TextOf(h), structuredRequested);
    var metadata := StreamMetadata(h);
    if h == [] || calls.None? || usage.None? || structured.None? || (metadata.Some? && !rules.bounded(MetadataJson(metadata.value)))
    then None
    else Bounded(rules, Response(TextOf(h), structured.value, calls.value, FinishOf(ReasonOf(h)), usage.value, metadata))
  }

  /** Running all events and then completing. */
  function StreamResponse(rules: Rules, h: seq<Delta>, structuredRequested: bool): Option<Response> {
    if Accepted(h) then ChainResponse(rules, h, structuredRequested) else None
  }

  // ---- Chains that split one message ----

  /** The events carry the message and nothing else: its text in order, its metadata wherever stated, its
      reason last, and its calls. */
  ghost predicate Splits(h: seq<Delta>, m: Message) {
    && h != []
    && (forall i :: 0 <= i < |h| ==> h[i].wellShaped)
    && TextOf(h) == m.content && StatesLast(h, m.reason)
    && StatesField(h, Id, m.id) && StatesField(h, Model, m.model) && StatesField(h, UsageField, m.usage)
    && SplitsCalls(PiecesOf(h), m.calls)
  }

  /** Some event states the reason and none after it states another. */
  ghost predicate StatesLast(h: seq<Delta>, reason: Option<string>) {
    if reason.None? then forall i :: 0 <= i < |h| ==> h[i].reason.None?
    else exists k :: 0 <= k < |h| && h[k].reason == reason && forall i :: k < i < |h| ==> h[i].reason.None?
  }

  ghost predicate StatesField(h: seq<Delta>, f: Field, v: Option<Json>) {
    && (forall i :: 0 <= i < |h| && Stated(h[i], f).Some? ==> Stated(h[i], f) == v)
    && (v.Some? ==> exists i :: 0 <= i < |h| && Stated(h[i], f).Some?)
  }

  /** The argument texts given under one index, in order. */
  function ArgumentTexts(p: seq<Piece>, i: nat): seq<string> {
    if p == [] then []
    else
      var last := p[|p| - 1];
      ArgumentTexts(p[..|p| - 1], i)
      + (if last.index == Some(i) && last.arguments.Some? then [last.arguments.value] else [])
  }

  ghost predicate StatesId(p: seq<Piece>, i: nat) {
    exists k :: 0 <= k < |p| && p[k].index == Some(i) && p[k].id.Some?
  }

  ghost predicate StatesName(p: seq<Piece>, i: nat) {
    exists k :: 0 <= k < |p| && p[k].index == Some(i) && p[k].name.Some?
  }

  ghost predicate Occurs(p: seq<Piece>, i: nat) {
    exists k :: 0 <= k < |p| && p[k].index == Some(i)
  }

  /** Every piece belongs to a call and states only that call's identity and name; each call's identity and
      name are stated, its argument texts join to its arguments, and calls open in order. */
  ghost predicate SplitsCalls(p: seq<Piece>, calls: seq<Call>) {
    && (forall k :: 0 <= k < |p| ==> PieceOf(p[k], calls))
    && (forall i :: 0 <= i < |calls| ==>
          StatesId(p, i) && StatesName(p, i) && Concat(ArgumentTexts(p, i)) == calls[i].arguments)
    && OpenInOrder(p)
  }

  predicate PieceOf(q: Piece, calls: seq<Call>) {
    && q.index.Some? && q.index.value < |calls|
    && (q.id.Some? ==> q.id.value == calls[q.index.value].id)
    && (q.name.Some? ==> q.name.value == calls[q.index.value].name)
  }

  /** A piece of one index comes after pieces of all smaller ones. */
  ghost predicate OpenInOrder(p: seq<Piece>) {
    forall k :: 0 <= k < |p| && p[k].index.Some? ==>
      forall j: nat :: j < p[k].index.value ==> Occurs(p[..k], j)
  }

  // ---- What such pieces add up to ----

  /** The accumulator's own view of the pieces: the tools it holds are the calls. */
  ghost predicate AddsUp(p: seq<Piece>, calls: seq<Call>) {
    && ToolCount(p) == |calls|
    && (forall k :: 0 <= k < |p| ==> PieceOf(p[k], calls) && p[k].index.value <= ToolCount(p[..k]))
    && (forall i :: 0 <= i < |calls| ==> ToolAt(p, i) == Tool(Some(calls[i].id), Some(calls[i].name), calls[i].arguments, false))
  }

  lemma OneMoreOccurs(p: seq<Piece>, n: nat, j: nat)
    requires n < |p|
    ensures Occurs(p[..n + 1], j) <==> Occurs(p[..n], j) || p[n].index == Some(j)
    ensures StatesId(p[..n + 1], j) <==> StatesId(p[..n], j) || (p[n].index == Some(j) && p[n].id.Some?)
    ensures StatesName(p[..n + 1], j) <==> StatesName(p[..n], j) || (p[n].index == Some(j) && p[n].name.Some?)
  {
    var a, b := p[..n], p[..n + 1];
    assert forall k :: 0 <= k < n ==> a[k] == b[k];
    assert b[n] == p[n];
  }

  /** The indexes seen so far are those below the count. */
  lemma {:induction false} CountIsOccurrences(p: seq<Piece>, n: nat, calls: seq<Call>)
    requires n <= |p| && OpenInOrder(p) && forall k :: 0 <= k < |p| ==> PieceOf(p[k], calls)
    ensures forall j: nat :: j < ToolCount(p[..n]) <==> Occurs(p[..n], j)
    ensures n < |p| && p[n].index.Some? ==> p[n].index.value <= ToolCount(p[..n])
    decreases n
  {
    if n > 0 {
      hide Occurs, PieceOf;
      CountIsOccurrences(p, n - 1, calls);
      assert p[..n][..n - 1] == p[..n - 1];
      forall j: nat
        ensures Occurs(p[..n], j) <==> Occurs(p[..n - 1], j) || p[n - 1].index == Some(j)
      {
        OneMoreOccurs(p, n - 1, j);
      }
      assert p[n - 1].index.Some? by { assert PieceOf(p[n - 1], calls); PieceHasIndex(p[n - 1], calls); }
    }
    if n < |p| {
      assert p[n].index.Some? by { assert PieceOf(p[n], calls); PieceHasIndex(p[n], calls); }
      var v: nat := p[n].index.value;
      if v > 0 {
        assert Occurs(p[..n], v - 1);
      }
    }
  }

  lemma PieceHasIndex(q: Piece, calls: seq<Call>)
    requires PieceOf(q, calls)
    ensures q.index.Some? && q.index.value < |calls|
  {
  }

  /** A tool is the identity and name once stated, and the join of its argument texts. */
  lemma {:induction false} ToolIsJoin(p: seq<Piece>, n: nat, calls: seq<Call>, i: nat)
    requires n <= |p| && i < |calls| && forall k :: 0 <= k < |p| ==> PieceOf(p[k], calls)
    ensures ToolAt(p[..n], i) == Tool(
              if StatesId(p[..n], i) then Some(calls[i].id) else None,
              if StatesName(p[..n], i) then Some(calls[i].name) else None,
              Concat(ArgumentTexts(p[..n], i)), false)
    decreases n
  {
    hide StatesId, StatesName, Occurs, Concat;
    NothingStated(i);
    if n > 0 {
      ToolIsJoin(p, n - 1, calls, i);
      OneMoreOccurs(p, n - 1, i);
      var front, q := p[..n - 1], p[n - 1];
      assert p[..n][..n - 1] == front && p[..n][n - 1] == q;
      assert PieceOf(q, calls);
      var texts := ArgumentTexts(front, i);
      if q.index == Some(i) && q.arguments.Some? {
        ConcatMore(texts, q.arguments.value);
      } else {
        assert texts + [] == texts;
      }
    }
  }

  lemma NothingStated(i: nat)
    ensures !StatesId([], i) && !StatesName([], i) && Concat([]) == ""
  {
  }

  lemma ConcatMore(parts: seq<string>, part: string)
    ensures Concat(parts + [part]) == Concat(parts) + part
  {
    assert (parts + [part])[..|parts|] == parts;
  }

  lemma SplitAddsUp(p: seq<Piece>, calls: seq<Call>)
    requires SplitsCalls(p, calls)
    ensures AddsUp(p, calls)
  {
    hide ToolCount, ToolAt, ArgumentTexts, Concat, OpenInOrder;
    assert p[..|p|] == p;
    forall i | 0 <= i < |calls|
      ensures ToolAt(p, i) == Tool(Some(calls[i].id), Some(calls[i].name), calls[i].arguments, false)
      ensures Occurs(p, i)
    {
      ToolIsJoin(p, |p|, calls, i);
    }
    forall k | 0 <= k < |p|
      ensures p[k].index.value <= ToolCount(p[..k])
    {
      CountIsOccurrences(p, k, calls);
    }
    CountIsOccurrences(p, |p|, calls);
    assert !Occurs(p, |calls|);
    assert ToolCount(p) < |calls| ==> Occurs(p, ToolCount(p));
  }

  lemma {:induction false} ReasonIsLast(h: seq<Delta>, reason: Option<string>)
    requires StatesLast(h, reason)
    ensures ReasonOf(h) == reason
  {
    if h != [] && h[|h| - 1].reason.None? {
      var front := h[..|h| - 1];
      if reason.Some? {
        var k :| 0 <= k < |h| && h[k].reason == reason && forall i :: k < i < |h| ==> h[i].reason.None?;
        assert front[k].reason == reason && forall i :: k < i < |front| ==> front[i].reason.None?;
      }
      ReasonIsLast(front, reason);
    }
  }

  lemma {:induction false} RetainedIsStated(h: seq<Delta>, f: Field, v: Option<Json>)
    requires forall i :: 0 <= i < |h| && Stated(h[i], f).Some? ==> Stated(h[i], f) == v
    ensures Retained(h, f) == if exists i :: 0 <= i < |h| && Stated(h[i], f).Some? then v else None
  {
    if h != [] {
      var front := h[..|h| - 1];
      RetainedIsStated(front, f, v);
      if exists i :: 0 <= i < |front| && Stated(front[i], f).Some? {
        var i :| 0 <= i < |front| && Stated(front[i], f).Some?;
        assert Stated(h[i], f).Some?;
      }
    }
  }

  /** Every prefix retains the message's field or nothing. */
  lemma FieldsAgree(h: seq<Delta>, n: nat, f: Field, v: Option<Json>)
    requires n <= |h| && StatesField(h, f, v)
    ensures Retained(h[..n], f).Some? ==> Retained(h[..n], f) == v
    ensures n == |h| ==> Retained(h[..n], f) == v
  {
    RetainedIsStated(h[..n], f, v);
    if n == |h| && v.Some? {
      var i :| 0 <= i < |h| && Stated(h[i], f).Some?;
      assert Stated(h[..n][i], f).Some?;
    }
  }

  lemma {:induction false} ToolsAgree(p: seq<Piece>, n: nat, calls: seq<Call>, i: nat)
    requires n <= |p| && AddsUp(p, calls) && i < |calls|
    ensures ToolAt(p[..n], i).id.Some? ==> ToolAt(p[..n], i).id.value == calls[i].id
    ensures ToolAt(p[..n], i).name.Some? ==> ToolAt(p[..n], i).name.value == calls[i].name
    decreases n
  {
    if n > 0 {
      ToolsAgree(p, n - 1, calls, i);
      assert p[..n][..n - 1] == p[..n - 1];
    }
  }

  lemma {:induction false} EmptyToolBeyond(p: seq<Piece>, i: nat)
    requires i >= ToolCount(p)
    ensures ToolAt(p, i) == Tool(None, None, "", false)
  {
    if p != [] {
      EmptyToolBeyond(p[..|p| - 1], i);
    }
  }

  lemma PieceOfSplitFits(p: seq<Piece>, k: nat, calls: seq<Call>)
    requires k < |p| && AddsUp(p, calls)
    ensures PieceFits(p[..k], p[k])
  {
    ToolsAgree(p, k, calls, p[k].index.value);
  }

  lemma {:induction false} PiecesOfPrefix(h: seq<Delta>, n: nat)
    requires n <= |h|
    ensures PiecesOf(h[..n]) <= PiecesOf(h)
    ensures n < |h| ==> PiecesOf(h[..n]) + h[n].pieces <= PiecesOf(h)
    decreases |h|
  {
    if n == |h| {
      assert h[..n] == h;
    } else if n == |h| - 1 {
    } else {
      var front := h[..|h| - 1];
      PiecesOfPrefix(front, n);
      assert front[..n] == h[..n];
    }
  }

  lemma PiecesOfSplitFit(p: seq<Piece>, before: seq<Piece>, more: seq<Piece>, calls: seq<Call>)
    requires before + more <= p && AddsUp(p, calls)
    ensures PiecesFit(before, more)
  {
    hide AddsUp, PieceFits;
    forall k | 0 <= k < |more|
      ensures PieceFits(before + more[..k], more[k])
    {
      PieceOfSplitFits(p, |before| + k, calls);
      assert p[..|before| + k] == before + more[..k];
      assert p[|before| + k] == more[k];
    }
  }

  lemma EventOfSplitFits(h: seq<Delta>, n: nat, m: Message)
    requires n < |h| && Splits(h, m) && (m.usage.Some? ==> ParseUsage(m.usage).Some?)
    ensures Fits(h[..n], h[n])
  {
    hide SplitsCalls, AddsUp, PiecesFit, ParseUsage, TextOf, StatesLast, PiecesOf;
    FieldsAgree(h, n, Id, m.id);
    FieldsAgree(h, n, Model, m.model);
    FieldsAgree(h, n, UsageField, m.usage);
    PiecesOfPrefix(h, n);
    SplitAddsUp(PiecesOf(h), m.calls);
    PiecesOfSplitFit(PiecesOf(h), PiecesOf(h[..n]), h[n].pieces, m.calls);
  }

  /** Every event of a chain that splits a message with readable usage is accepted. */
  lemma {:induction false} SplitIsAccepted(h: seq<Delta>, n: nat, m: Message)
    requires n <= |h| && Splits(h, m) && (m.usage.Some? ==> ParseUsage(m.usage).Some?)
    ensures Accepted(h[..n])
    decreases n
  {
    hide Splits, Fits, ParseUsage;
    if n > 0 {
      SplitIsAccepted(h, n - 1, m);
      EventOfSplitFits(h, n - 1, m);
      assert h[..n][..n - 1] == h[..n - 1];
    }
  }

  lemma {:induction false} CallsAgree(rules: Rules, p: seq<Piece>, calls: seq<Call>, n: nat)
    requires n <= |calls| && AddsUp(p, calls)
    ensures FinishCalls(rules, p, n) == BuildCalls(rules, calls[..n])
    decreases n
  {
    if n > 0 {
      CallsAgree(rules, p, calls, n - 1);
      assert calls[..n][..n - 1] == calls[..n - 1];
      assert ToolAt(p, n - 1) == Tool(Some(calls[n - 1].id), Some(calls[n - 1].name), calls[n - 1].arguments, false);
    }
  }

  /** A message that states no identity, model or usage. */
  predicate Anonymous(m: Message) { m.id.None? && m.model.None? && m.usage.None? }

  function WithoutMetadata(r: Option<Response>): Option<Response> {
    if r.Some? then Some(r.value.(metadata := None)) else None
  }

  /** A chain that splits a message yields what the whole message yields: the same text, structured
      output, calls in order, finish reason and usage, or both fail. The metadata document agrees too
      exactly when the message is not anonymous. */
  lemma StreamAgreesWithWhole(rules: Rules, h: seq<Delta>, value: Json, structuredRequested: bool)
    requires ReadMessage(value).Some? && Splits(h, ReadMessage(value).value)
    requires rules.bounded(MetadataJson(Metadata(None, None, None)))
    ensures WithoutMetadata(StreamResponse(rules, h, structuredRequested))
            == WithoutMetadata(WholeResponse(rules, value, structuredRequested))
    ensures WholeResponse(rules, value, structuredRequested).Some? ==>
              (StreamResponse(rules, h, structuredRequested) == WholeResponse(rules, value, structuredRequested)
               <==> !Anonymous(ReadMessage(value).value))
  {
    hide ReadMessage, Structured, BuildCalls, FinishCalls, ParseUsage, TextOf, ReasonOf, PiecesOf, StatesLast, SplitsCalls;
    var m := ReadMessage(value).value;
    assert h[..|h|] == h && m.calls[..|m.calls|] == m.calls;
    FieldsAgree(h, |h|, Id, m.id);
    FieldsAgree(h, |h|, Model, m.model);
    FieldsAgree(h, |h|, UsageField, m.usage);
    SplitAddsUp(PiecesOf(h), m.calls);
    CallsAgree(rules, PiecesOf(h), m.calls, |m.calls|);
    ReasonIsLast(h, m.reason);
    if m.usage.Some? && ParseUsage(m.usage).None? {
      RejectedUsage(rules, h, structuredRequested);
    } else {
      SplitIsAccepted(h, |h|, m);
    }
  }

  lemma RejectedUsage(rules: Rules, h: seq<Delta>, structuredRequested: bool)
    requires ParseUsage(Retained(h, UsageField)).None?
    ensures StreamResponse(rules, h, structuredRequested).None?
  {
  }

  // ---- Every way of cutting a message is such a chain ----

  /** A stretch of one call's argument text. */
  datatype Slice = Slice(index: u64, text: string)

  /** What one event takes: the next stretch of content, stretches of argument texts, which metadata it
      states and whether it states the finish reason. */
  datatype Part = Part(content: Option<string>, slices: seq<Slice>, fields: set<Field>, final: bool)

  function ContentTexts(parts: seq<Part>): seq<string> {
    if parts == [] then []
    else
      var last := parts[|parts| - 1];
      ContentTexts(parts[..|parts| - 1]) + (if last.content.Some? then [last.content.value] else [])
  }

  function SlicesOf(parts: seq<Part>): seq<Slice> {
    if parts == [] then [] else SlicesOf(parts[..|parts| - 1]) + parts[|parts| - 1].slices
  }

  /** The stretches of one call, in order. */
  function TextsOf(slices: seq<Slice>, i: nat): seq<string> {
    if slices == [] then []
    else
      var last := slices[|slices| - 1];
      TextsOf(slices[..|slices| - 1], i) + (if last.index == i then [last.text] else [])
  }

  predicate Begun(slices: seq<Slice>, i: nat) {
    exists k :: 0 <= k < |slices| && slices[k].index == i
  }

  function MessageField(m: Message, f: Field): Option<Json> {
    match f case Id => m.id case Model => m.model case UsageField => m.usage
  }

  /** The parts cut the message: the stretches of content join to the content and those of each call to
      its arguments, calls begin in order, and metadata and reason are stated somewhere. */
  ghost predicate Cuts(parts: seq<Part>, m: Message) {
    && parts != []
    && Concat(ContentTexts(parts)) == m.content
    && CutsCalls(SlicesOf(parts), m.calls)
    && (forall f :: MessageField(m, f).Some? ==> exists k :: 0 <= k < |parts| && f in parts[k].fields)
    && (m.reason.Some? ==> exists k :: 0 <= k < |parts| && parts[k].final)
  }

  ghost predicate CutsCalls(slices: seq<Slice>, calls: seq<Call>) {
    && (forall k :: 0 <= k < |slices| ==> slices[k].index < |calls|)
    && (forall i :: 0 <= i < |calls| ==> Begun(slices, i) && Concat(TextsOf(slices, i)) == calls[i].arguments)
    && (forall k :: 0 <= k < |slices| ==> forall j: nat :: j < slices[k].index ==> Begun(slices[..k], j))
  }

  /** The piece of one slice: the first of a call also states its identity and name. */
  function PieceFor(calls: seq<Call>, before: seq<Slice>, s: Slice): Piece {
    var named := s.index < |calls| && !Begun(before, s.index);
    Piece(Some(s.index), if named then Some(calls[s.index].id) else None,
          if named then Some(calls[s.index].name) else None, Some(s.text))
  }

  function PiecesFor(calls: seq<Call>, before: seq<Slice>, slices: seq<Slice>): (p: seq<Piece>)
    ensures |p| == |slices| && forall k :: 0 <= k < |p| ==> p[k] == PieceFor(calls, before + slices[..k], slices[k])
  {
    seq(|slices|, k requires 0 <= k < |slices| => PieceFor(calls, before + slices[..k], slices[k]))
  }

  function EventFor(m: Message, before: seq<Slice>, part: Part): Delta {
    Delta(
      if Id in part.fields then m.id else None, if Model in part.fields then m.model else None,
      if UsageField in part.fields then m.usage else None,
      true, if part.final then m.reason else None, part.content, PiecesFor(m.calls, before, part.slices))
  }

  /** The events of a cutting, one for each part. */
  function EventsFor(m: Message, parts: seq<Part>): (h: seq<Delta>)
    ensures |h| == |parts|
  {
    if parts == [] then []
    else
      var front := parts[..|parts| - 1];
      EventsFor(m, front) + [EventFor(m, SlicesOf(front), parts[|parts| - 1])]
  }

  lemma {:induction false} EventAt(m: Message, parts: seq<Part>, k: nat)
    requires k < |parts|
    ensures EventsFor(m, parts)[k] == EventFor(m, SlicesOf(parts[..k]), parts[k])
  {
    hide EventFor;
    var front := parts[..|parts| - 1];
    if k < |front| {
      EventAt(m, front, k);
      assert front[..k] == parts[..k];
    }
  }

  lemma {:induction false} EventContents(m: Message, parts: seq<Part>)
    ensures Contents(EventsFor(m, parts)) == ContentTexts(parts)
    ensures PiecesOf(EventsFor(m, parts)) == PiecesFor(m.calls, [], SlicesOf(parts))
  {
    hide PieceFor, PiecesFor;
    if parts != [] {
      var front, last := parts[..|parts| - 1], parts[|parts| - 1];
      EventContents(m, front);
      var h := EventsFor(m, parts);
      assert h[..|h| - 1] == EventsFor(m, front);
      PiecesJoin(m.calls, SlicesOf(front), last.slices);
    }
  }

  lemma PiecesJoin(calls: seq<Call>, a: seq<Slice>, b: seq<Slice>)
    ensures PiecesFor(calls, [], a) + PiecesFor(calls, a, b) == PiecesFor(calls, [], a + b)
  {
    hide PiecesFor;
    var front, back, whole := PiecesFor(calls, [], a), PiecesFor(calls, a, b), PiecesFor(calls, [], a + b);
    forall k | 0 <= k < |whole|
      ensures whole[k] == (front + back)[k]
    {
      PieceOfJoin(calls, a, b, k);
    }
  }

  lemma PieceOfJoin(calls: seq<Call>, a: seq<Slice>, b: seq<Slice>, k: nat)
    requires k < |a| + |b|
    ensures PiecesFor(calls, [], a + b)[k]
            == if k < |a| then PiecesFor(calls, [], a)[k] else PiecesFor(calls, a, b)[k - |a|]
  {
    hide PieceFor;
    assert [] + (a + b)[..k] == if k < |a| then [] + a[..k] else a + b[..k - |a|];
  }

  lemma {:induction false} PieceTexts(calls: seq<Call>, slices: seq<Slice>, i: nat)
    ensures ArgumentTexts(PiecesFor(calls, [], slices), i) == TextsOf(slices, i)
  {
    if slices != [] {
      var front := slices[..|slices| - 1];
      PieceTexts(calls, front, i);
      var p := PiecesFor(calls, [], slices);
      assert p[..|p| - 1] == PiecesFor(calls, [], front) by {
        forall k | 0 <= k < |front|
          ensures p[k] == PiecesFor(calls, [], front)[k]
        {
          assert slices[..k] == front[..k];
        }
      }
    }
  }

  /** The first slice of a call that has begun. */
  lemma {:induction false} FirstSlice(slices: seq<Slice>, i: nat) returns (k: nat)
    requires Begun(slices, i)
    ensures k < |slices| && slices[k].index == i && !Begun(slices[..k], i)
  {
    var front := slices[..|slices| - 1];
    if Begun(front, i) {
      k := FirstSlice(front, i);
      assert slices[..k] == front[..k];
    } else {
      k := |slices| - 1;
    }
  }

  lemma SlicesSplitCalls(slices: seq<Slice>, calls: seq<Call>)
    requires CutsCalls(slices, calls)
    ensures SplitsCalls(PiecesFor(calls, [], slices), calls)
  {
    var p := PiecesFor(calls, [], slices);
    forall i | 0 <= i < |calls|
      ensures StatesId(p, i) && StatesName(p, i) && Concat(ArgumentTexts(p, i)) == calls[i].arguments
    {
      PieceTexts(calls, slices, i);
      var k := FirstSlice(slices, i);
      assert [] + slices[..k] == slices[..k];
      assert p[k].index == Some(i) && p[k].id.Some? && p[k].name.Some?;
    }
    SlicesOpenInOrder(slices, calls);
  }

  lemma SlicesOpenInOrder(slices: seq<Slice>, calls: seq<Call>)
    requires CutsCalls(slices, calls)
    ensures OpenInOrder(PiecesFor(calls, [], slices))
  {
    var p := PiecesFor(calls, [], slices);
    forall k, j: nat | 0 <= k < |p| && j < p[k].index.value
      ensures Occurs(p[..k], j)
    {
      assert j < slices[k].index && Begun(slices[..k], j);
      var l :| 0 <= l < k && slices[..k][l].index == j;
      assert p[..k][l] == p[l] && p[l].index == Some(j);
    }
  }

  lemma {:induction false} LastStatement(h: seq<Delta>, n: nat, reason: Option<string>) returns (k: nat)
    requires n <= |h| && reason.Some? && forall i :: 0 <= i < n && h[i].reason.Some? ==> h[i].reason == reason
    requires exists i :: 0 <= i < n && h[i].reason.Some?
    ensures k < n && h[k].reason == reason && forall i :: k < i < n ==> h[i].reason.None?
    decreases n
  {
    if h[n - 1].reason.Some? {
      k := n - 1;
    } else {
      k := LastStatement(h, n - 1, reason);
    }
  }

  lemma CuttingEvents(m: Message, parts: seq<Part>)
    ensures forall k :: 0 <= k < |parts| ==> EventsFor(m, parts)[k] == EventFor(m, SlicesOf(parts[..k]), parts[k])
  {
    hide EventFor;
    forall k | 0 <= k < |parts|
      ensures EventsFor(m, parts)[k] == EventFor(m, SlicesOf(parts[..k]), parts[k])
    {
      EventAt(m, parts, k);
    }
  }

  lemma EventReason(m: Message, before: seq<Slice>, part: Part)
    ensures EventFor(m, before, part).reason == if part.final then m.reason else None
  {
  }

  lemma CuttingStatesReason(m: Message, parts: seq<Part>)
    requires m.reason.Some? ==> exists k :: 0 <= k < |parts| && parts[k].final
    ensures StatesLast(EventsFor(m, parts), m.reason)
  {
    hide PiecesFor, SlicesOf, EventsFor, EventFor;
    var h := EventsFor(m, parts);
    CuttingEvents(m, parts);
    forall k | 0 <= k < |h|
      ensures h[k].reason == if parts[k].final then m.reason else None
    {
      EventReason(m, SlicesOf(parts[..k]), parts[k]);
    }
    if m.reason.Some? {
      var k :| 0 <= k < |parts| && parts[k].final;
      assert h[k].reason.Some?;
      var last := LastStatement(h, |h|, m.reason);
    }
  }

  lemma CuttingStatesField(m: Message, parts: seq<Part>, f: Field)
    requires MessageField(m, f).Some? ==> exists k :: 0 <= k < |parts| && f in parts[k].fields
    ensures StatesField(EventsFor(m, parts), f, MessageField(m, f))
  {
    hide PiecesFor, SlicesOf, EventsFor;
    var h := EventsFor(m, parts);
    CuttingEvents(m, parts);
    if MessageField(m, f).Some? {
      var k :| 0 <= k < |parts| && f in parts[k].fields;
      assert Stated(h[k], f).Some?;
    }
  }

  /** Whatever way a message is cut into events, the events split it. */
  lemma EveryCuttingSplits(m: Message, parts: seq<Part>)
    requires Cuts(parts, m)
    ensures Splits(EventsFor(m, parts), m)
  {
    hide SplitsCalls, CutsCalls, StatesLast, StatesField, PiecesFor, ContentTexts, SlicesOf;
    CuttingEvents(m, parts);
    CuttingStatesReason(m, parts);
    CuttingStatesField(m, parts, Id);
    CuttingStatesField(m, parts, Model);
    CuttingStatesField(m, parts, UsageField);
    EventContents(m, parts);
    SlicesSplitCalls(SlicesOf(parts), m.calls);
    assert MessageField(m, Id) == m.id && MessageField(m, Model) == m.model && MessageField(m, UsageField) == m.usage;
  }

  // ---- The coarsest cutting ----

  function WholeSlices(calls: seq<Call>): seq<Slice>
    requires |calls| <= U64_MAX
  {
    seq(|calls|, i requires 0 <= i < |calls| => Slice(i, calls[i].arguments))
  }

  function WholePart(m: Message): Part
    requires |m.calls| <= U64_MAX
  {
    Part(Some(m.content), WholeSlices(m.calls), {Id, Model, UsageField}, true)
  }

  lemma {:induction false} WholeTexts(calls: seq<Call>, n: nat, i: nat)
    requires n <= |calls| <= U64_MAX && i < |calls|
    ensures TextsOf(WholeSlices(calls)[..n], i) == if i < n then [calls[i].arguments] else []
    decreases n
  {
    if n > 0 {
      WholeTexts(calls, n - 1, i);
      assert WholeSlices(calls)[..n][..n - 1] == WholeSlices(calls)[..n - 1];
    }
  }

  lemma ConcatOne(part: string)
    ensures Concat([part]) == part
  {
    assert [part][..0] == [] && Concat([part]) == Concat([part][..0]) + part == "" + part == part;
  }

  lemma WholeSlicesCut(calls: seq<Call>)
    requires |calls| <= U64_MAX
    ensures CutsCalls(WholeSlices(calls), calls)
  {
    hide Concat, TextsOf;
    var s := WholeSlices(calls);
    assert s[..|calls|] == s;
    forall i | 0 <= i < |calls|
      ensures Begun(s, i) && Concat(TextsOf(s, i)) == calls[i].arguments
    {
      assert s[i].index == i;
      WholeTexts(calls, |calls|, i);
      ConcatOne(calls[i].arguments);
    }
    forall k, j: nat | 0 <= k < |s| && j < s[k].index
      ensures Begun(s[..k], j)
    {
      assert s[..k][j].index == j;
    }
  }

  /** A message can be sent in one event, so every message can be cut. */
  lemma OneEventSplits(m: Message)
    requires |m.calls| <= U64_MAX
    ensures Cuts([WholePart(m)], m) && Splits(EventsFor(m, [WholePart(m)]), m)
  {
    hide CutsCalls, WholeSlices, Splits;
    var part := WholePart(m);
    assert [part][..0] == [] && [part][0] == part;
    assert ContentTexts([part]) == [] + [m.content] == [m.content];
    assert SlicesOf([part]) == [] + part.slices == part.slices;
    ConcatOne(m.content);
    WholeSlicesCut(m.calls);
    EveryCuttingSplits(m, [part]);
  }
}
