/** What the framer makes of a stream, told from the sender's side: events written as `data` lines come
    out as they were, the other known fields change nothing, and anything else stops it. */
module SseRoundTrip {
  import opened Prelude
  import opened Bytes
  import opened Utf8
  import opened SseParser

  // ---- What a sender writes ----

  /** A line of an event: a stretch of text after `data: ` or `data:`, or a field without meaning here. */
  datatype Kind = Spaced | Tight | Comment | EventName | Identifier | RetryTime

  datatype Line = Line(kind: Kind, text: seq<byte>, crlf: bool)
  {
    predicate IsData() { kind.Spaced? || kind.Tight? }
  }

  /** Lines and the empty line that ends them. */
  datatype Block = Block(lines: seq<Line>, crlf: bool)

  /** `data: `, `data:`, `:`, `event:`, `id:` and `retry:` in ASCII. */
  function Label(kind: Kind): (mark: seq<byte>)
    ensures Ascii(mark) && mark != [] && mark[|mark| - 1] != CR && LF !in mark
  {
    match kind
    case Spaced => [100, 97, 116, 97, 58, 32]
    case Tight => [100, 97, 116, 97, 58]
    case Comment => [58]
    case EventName => [101, 118, 101, 110, 116, 58]
    case Identifier => [105, 100, 58]
    case RetryTime => [114, 101, 116, 114, 121, 58]
  }

  function Body(l: Line): seq<byte> { Label(l.kind) + l.text }

  function Return(crlf: bool): seq<byte> { if crlf then [CR] else [] }

  function LinesBytes(lines: seq<Line>): seq<byte> {
    if lines == [] then [] else Body(lines[0]) + Return(lines[0].crlf) + [LF] + LinesBytes(lines[1..])
  }

  function StreamBytes(blocks: seq<Block>): seq<byte> {
    if blocks == [] then []
    else LinesBytes(blocks[0].lines) + (Return(blocks[0].crlf) + [LF] + StreamBytes(blocks[1..]))
  }

  /** Text of one line, within the bound, that can be told from its line ending. */
  predicate LineFits(c: Config, l: Line) {
    && Valid(l.text) && LF !in l.text && |Body(l)| <= c.maxLine
    && (!l.crlf && l.text != [] ==> l.text[|l.text| - 1] != CR)
    && (l.kind.Tight? && l.text != [] ==> l.text[0] != SPACE)
  }

  // ---- What it means ----

  function DataTexts(lines: seq<Line>): seq<seq<byte>> {
    if lines == [] then [] else (if lines[0].IsData() then [lines[0].text] else []) + DataTexts(lines[1..])
  }

  /** The texts with a line feed between them. */
  function JoinedLines(texts: seq<seq<byte>>): seq<byte> {
    if texts == [] then [] else if |texts| == 1 then texts[0] else texts[0] + [LF] + JoinedLines(texts[1..])
  }

  /** One event for each block with data, its texts joined. */
  function EventsOf(blocks: seq<Block>): seq<seq<byte>> {
    if blocks == [] then []
    else
      var texts := DataTexts(blocks[0].lines);
      (if texts == [] then [] else [JoinedLines(texts)]) + EventsOf(blocks[1..])
  }

  predicate BlockFits(c: Config, b: Block) {
    && (forall i :: 0 <= i < |b.lines| ==> LineFits(c, b.lines[i]))
    && (DataTexts(b.lines) != [] ==> |JoinedLines(DataTexts(b.lines))| + 1 <= c.maxEvent)
  }

  // ---- One line ----

  lemma BodyIsLine(c: Config, l: Line)
    requires LineFits(c, l)
    ensures WithoutCr(Body(l) + Return(l.crlf)) == Body(l) && Valid(Body(l))
    ensures LineEnd(Body(l) + Return(l.crlf)) == |Body(l) + Return(l.crlf)|
  {
    AsciiIsValid(Label(l.kind));
    ValidConcat(Label(l.kind), l.text);
    var raw := Body(l) + Return(l.crlf);
    if l.crlf {
      assert raw[|raw| - 1] == CR && raw[..|raw| - 1] == Body(l);
    } else {
      assert raw == Body(l);
    }
    NoLine(raw);
  }

  lemma KindOfBody(l: Line)
    requires l.kind.Tight? && l.text != [] ==> l.text[0] != SPACE
    ensures l.IsData() ==> DATA <= Body(l) && DataValue(Body(l)) == l.text
    ensures !l.IsData() ==> Ignored(Body(l)) && !(DATA <= Body(l))
  {
    var b := Body(l);
    match l.kind {
      case Spaced => assert b[|DATA|] == SPACE && b[|DATA| + 1..] == l.text && b[..|DATA|] == DATA;
      case Tight => assert b[..|DATA|] == DATA && b[|DATA|..] == l.text && (l.text != [] ==> b[|DATA|] == l.text[0]);
      case Comment => assert b[0] == 58 && b[..1] == [COLON];
      case EventName => assert b[0] == 101 && b[..6] == EVENT;
      case Identifier => assert b[0] == 105 && b[..3] == ID;
      case RetryTime => assert b[0] == 114 && b[..6] == RETRY;
    }
  }

  function Added(l: Line): seq<byte> { if l.IsData() then l.text + [LF] else [] }

  /** A data line adds its text and a line feed; any other known field adds nothing. */
  lemma LineAdds(c: Config, l: Line, data: seq<byte>, emitted: seq<seq<byte>>)
    requires LineFits(c, l) && |data + Added(l)| <= c.maxEvent
    ensures Process(c, data, emitted, Body(l) + Return(l.crlf)) == Continue(data + Added(l), emitted)
  {
    BodyIsLine(c, l);
    KindOfBody(l);
    hide Valid, DataValue, Ignored, WithoutCr;
    assert data + [] == data && data + l.text + [LF] == data + (l.text + [LF]);
  }

  // ---- One block ----

  function Collected(lines: seq<Line>): seq<byte> {
    if lines == [] then [] else Added(lines[0]) + Collected(lines[1..])
  }

  lemma {:induction false} CollectedIsJoined(lines: seq<Line>)
    ensures Collected(lines) == if DataTexts(lines) == [] then [] else JoinedLines(DataTexts(lines)) + [LF]
  {
    if lines != [] {
      CollectedIsJoined(lines[1..]);
      var texts := DataTexts(lines[1..]);
      if lines[0].IsData() {
        assert ([lines[0].text] + texts)[1..] == texts;
      } else {
        assert [] + texts == texts && [] + Collected(lines[1..]) == Collected(lines[1..]);
      }
    }
  }

  lemma Regrouped(a: seq<byte>, b: seq<byte>, d: seq<byte>)
    ensures a + b + d == a + (b + d)
  {
  }

  lemma FirstLine(lines: seq<Line>, rest: seq<byte>)
    requires lines != []
    ensures LinesBytes(lines) + rest == Body(lines[0]) + Return(lines[0].crlf) + [LF] + (LinesBytes(lines[1..]) + rest)
    ensures Collected(lines) == Added(lines[0]) + Collected(lines[1..])
  {
    hide Body, Return, Added;
    Regrouped(Body(lines[0]) + Return(lines[0].crlf) + [LF], LinesBytes(lines[1..]), rest);
  }

  lemma NoLines(rest: seq<byte>, data: seq<byte>)
    ensures LinesBytes([]) + rest == rest && data + Collected([]) == data
  {
  }

  lemma {:induction false} LinesAdd(c: Config, lines: seq<Line>, rest: seq<byte>, data: seq<byte>, emitted: seq<seq<byte>>)
    requires forall i :: 0 <= i < |lines| ==> LineFits(c, lines[i])
    requires Collected(lines) != [] ==> |data + Collected(lines)| <= c.maxEvent
    ensures Drain(c, Going(LinesBytes(lines) + rest, data, emitted)) == Drain(c, Going(rest, data + Collected(lines), emitted))
  {
    hide Process, Drain, LineFits, Added, Body, Return, LinesBytes, Collected, LineEnd;
    if lines == [] {
      NoLines(rest, data);
    } else {
      var l, more := lines[0], lines[1..];
      FirstLine(lines, rest);
      BodyIsLine(c, l);
      DrainLine(c, Body(l) + Return(l.crlf), LinesBytes(more) + rest, data, emitted);
      if Added(l) == [] {
        NothingAdded(c, l, data, emitted);
      } else {
        LineAdds(c, l, data, emitted);
      }
      Regrouped(data, Added(l), Collected(more));
      LinesAdd(c, more, rest, data + Added(l), emitted);
    }
  }

  /** A field without meaning here fits whatever has been collected. */
  lemma NothingAdded(c: Config, l: Line, data: seq<byte>, emitted: seq<seq<byte>>)
    requires LineFits(c, l) && Added(l) == []
    ensures Process(c, data, emitted, Body(l) + Return(l.crlf)) == Continue(data + Added(l), emitted)
  {
    BodyIsLine(c, l);
    KindOfBody(l);
    hide Valid, DataValue, Ignored, WithoutCr;
    assert data + [] == data;
  }

  lemma EmptyLine(c: Config, crlf: bool, data: seq<byte>, emitted: seq<seq<byte>>)
    requires data != [] ==> c.accept(emitted + [data[..|data| - 1]])
    ensures LineEnd(Return(crlf)) == |Return(crlf)|
    ensures Process(c, data, emitted, Return(crlf)) == Continue([], if data == [] then emitted else emitted + [data[..|data| - 1]])
  {
    assert Valid([]);
    assert WithoutCr(Return(crlf)) == [];
    NoLine(Return(crlf));
  }

  lemma BlockEmits(c: Config, b: Block, rest: seq<byte>, emitted: seq<seq<byte>>)
    requires BlockFits(c, b)
    requires DataTexts(b.lines) != [] ==> c.accept(emitted + [JoinedLines(DataTexts(b.lines))])
    ensures Drain(c, Going(LinesBytes(b.lines) + (Return(b.crlf) + [LF] + rest), [], emitted))
            == Drain(c, Going(rest, [], emitted + EventsOf([b])))
  {
    hide Process, Drain, LineFits, LinesBytes, Return;
    var texts := DataTexts(b.lines);
    CollectedIsJoined(b.lines);
    var data := Collected(b.lines);
    assert [] + data == data;
    LinesAdd(c, b.lines, Return(b.crlf) + [LF] + rest, [], emitted);
    assert texts != [] ==> data[..|data| - 1] == JoinedLines(texts);
    EmptyLine(c, b.crlf, data, emitted);
    DrainLine(c, Return(b.crlf), rest, data, emitted);
    assert [b][1..] == [] && EventsOf([b]) == (if texts == [] then [] else [JoinedLines(texts)]);
    assert emitted + [] == emitted;
  }

  // ---- A whole stream ----

  /** The consumer takes every event in turn. */
  ghost predicate AllTaken(c: Config, emitted: seq<seq<byte>>, events: seq<seq<byte>>) {
    forall k :: 0 < k <= |events| ==> c.accept(emitted + events[..k])
  }

  lemma {:induction false} BlocksEmit(c: Config, blocks: seq<Block>, rest: seq<byte>, emitted: seq<seq<byte>>)
    requires (forall i :: 0 <= i < |blocks| ==> BlockFits(c, blocks[i])) && AllTaken(c, emitted, EventsOf(blocks))
    ensures Drain(c, Going(StreamBytes(blocks) + rest, [], emitted)) == Drain(c, Going(rest, [], emitted + EventsOf(blocks)))
  {
    hide Drain, BlockFits, LinesBytes, Return, DataTexts, JoinedLines, StreamBytes, EventsOf, AllTaken;
    if blocks == [] {
      NoBlocks(rest, emitted);
    } else {
      var b, more := blocks[0], blocks[1..];
      var first := EventsOf([b]);
      FirstEvent(blocks);
      FirstBlock(blocks, rest);
      TakenInTurn(c, emitted, first, EventsOf(more));
      BlockEmits(c, b, StreamBytes(more) + rest, emitted);
      BlocksEmit(c, more, rest, emitted + first);
    }
  }

  lemma NoBlocks(rest: seq<byte>, emitted: seq<seq<byte>>)
    ensures StreamBytes([]) + rest == rest && emitted + EventsOf([]) == emitted
  {
  }

  lemma FirstBlock(blocks: seq<Block>, rest: seq<byte>)
    requires blocks != []
    ensures StreamBytes(blocks) + rest
            == LinesBytes(blocks[0].lines) + (Return(blocks[0].crlf) + [LF] + (StreamBytes(blocks[1..]) + rest))
  {
    hide LinesBytes, Return;
    var head, end, more := LinesBytes(blocks[0].lines), Return(blocks[0].crlf) + [LF], StreamBytes(blocks[1..]);
    Regrouped(head, end + more, rest);
    Regrouped(end, more, rest);
  }

  lemma TakenInTurn(c: Config, emitted: seq<seq<byte>>, first: seq<seq<byte>>, more: seq<seq<byte>>)
    requires AllTaken(c, emitted, first + more) && |first| <= 1
    ensures first != [] ==> c.accept(emitted + first)
    ensures AllTaken(c, emitted + first, more) && emitted + (first + more) == emitted + first + more
  {
    if first != [] {
      assert (first + more)[..1] == first;
    }
    forall k | 0 < k <= |more|
      ensures c.accept(emitted + first + more[..k])
    {
      assert emitted + (first + more)[..|first| + k] == emitted + first + more[..k];
    }
  }

  lemma FirstEvent(blocks: seq<Block>)
    requires blocks != []
    ensures EventsOf(blocks) == EventsOf([blocks[0]]) + EventsOf(blocks[1..])
    ensures EventsOf([blocks[0]]) == if DataTexts(blocks[0].lines) == [] then [] else [JoinedLines(DataTexts(blocks[0].lines))]
  {
    assert [blocks[0]][1..] == [];
  }

  /** One push of a stream that has a complete line is draining it. */
  lemma OnePush(c: Config, stream: seq<byte>)
    requires stream == [] || Terminated(stream)
    ensures Outcomes(c, [stream]) == Ended(Drain(c, Going(stream, [], [])))
  {
    hide Drain;
    OneCut(c, stream);
    assert [] + stream == stream;
  }

  lemma StreamEndsInLine(blocks: seq<Block>, rest: seq<byte>)
    ensures blocks != [] ==> Terminated(StreamBytes(blocks) + rest)
  {
    hide LineEnd, LinesBytes;
    if blocks != [] {
      var s := StreamBytes(blocks) + rest;
      var at := |LinesBytes(blocks[0].lines) + Return(blocks[0].crlf)|;
      assert s[at] == LF;
    }
  }

  /** What a sender writes is what the consumer gets, event by event, and the stream ends well. */
  lemma WhatIsSentArrives(c: Config, blocks: seq<Block>)
    requires (forall i :: 0 <= i < |blocks| ==> BlockFits(c, blocks[i])) && AllTaken(c, [], EventsOf(blocks))
    ensures Outcomes(c, [StreamBytes(blocks)]) == Outcome(EventsOf(blocks), Ok(()))
  {
    hide BlockFits, StreamBytes, EventsOf, Drain, LineEnd;
    var stream := StreamBytes(blocks);
    assert stream + [] == stream && [] + EventsOf(blocks) == EventsOf(blocks);
    BlocksEmit(c, blocks, [], []);
    if blocks == [] {
      NoBlocks([], []);
    } else {
      StreamEndsInLine(blocks, []);
    }
    OnePush(c, stream);
    LeftOver(c, [], EventsOf(blocks));
  }

  lemma LeftOver(c: Config, data: seq<byte>, events: seq<seq<byte>>)
    ensures Ended(Drain(c, Going([], data, events))) == Outcome(events, if data == [] then Ok(()) else Err(Truncated))
  {
  }

  /** However it is cut into reads, when its lines fit with their carriage returns. */
  lemma WhatIsSentArrivesInPieces(c: Config, blocks: seq<Block>, cuts: seq<seq<byte>>)
    requires (forall i :: 0 <= i < |blocks| ==> BlockFits(c, blocks[i])) && AllTaken(c, [], EventsOf(blocks))
    requires Join(cuts) == StreamBytes(blocks) && LinesWithin(StreamBytes(blocks), c.maxLine)
    ensures Outcomes(c, cuts) == Outcome(EventsOf(blocks), Ok(()))
  {
    hide *;
    WhatIsSentArrives(c, blocks);
    ShortLinesDoNotMatter(c, cuts);
  }

  // ---- What stops it ----

  /** A line, with or without its carriage return, that is told apart from its ending. */
  predicate Plain(line: seq<byte>, crlf: bool) {
    LF !in line && (!crlf && line != [] ==> line[|line| - 1] != CR)
  }

  /** Beginning with none of the known labels. */
  predicate Unlabelled(line: seq<byte>) {
    forall kind :: kind != Spaced ==> !(Label(kind) <= line)
  }

  /** After any events and lines of an unfinished one, a line stops the stream for exactly the first of
      these that applies: too long, no text, more data than an event may have, or no known label. */
  lemma BadLineStops(c: Config, blocks: seq<Block>, lines: seq<Line>, line: seq<byte>, crlf: bool, rest: seq<byte>)
    requires (forall i :: 0 <= i < |blocks| ==> BlockFits(c, blocks[i])) && AllTaken(c, [], EventsOf(blocks))
    requires (forall i :: 0 <= i < |lines| ==> LineFits(c, lines[i])) && |Collected(lines)| <= c.maxEvent
    requires Plain(line, crlf) && line != []
    ensures var stream := StreamBytes(blocks) + (LinesBytes(lines) + (line + Return(crlf) + [LF] + rest));
            && (|line| > c.maxLine ==> Outcomes(c, [stream]) == Outcome(EventsOf(blocks), Err(LineTooLarge)))
            && (|line| <= c.maxLine && !Valid(line) ==> Outcomes(c, [stream]) == Outcome(EventsOf(blocks), Err(InvalidUtf8)))
            && (|line| <= c.maxLine && Valid(line) && Unlabelled(line) ==>
                  Outcomes(c, [stream]) == Outcome(EventsOf(blocks), Err(MalformedField)))
            && (forall l: Line :: LineFits(c, l) && l.IsData() && line == Body(l) && |Collected(lines) + l.text| + 1 > c.maxEvent ==>
                  Outcomes(c, [stream]) == Outcome(EventsOf(blocks), Err(EventTooLarge)))
  {
    hide Process, Drain, LineFits, BlockFits, LinesBytes, StreamBytes, Return, Valid, Unlabelled, Body, Plain, Collected, EventsOf, AllTaken,
         Outcomes, LineEnd;
    PlainLine(line, crlf);
    WhyHalts(c, Collected(lines), EventsOf(blocks), line, crlf);
    forall error | Process(c, Collected(lines), EventsOf(blocks), line + Return(crlf)) == Halt(error, EventsOf(blocks))
      ensures Outcomes(c, [StreamBytes(blocks) + (LinesBytes(lines) + (line + Return(crlf) + [LF] + rest))])
              == Outcome(EventsOf(blocks), Err(error))
    {
      LineHalts(c, blocks, lines, line + Return(crlf), rest, error);
    }
  }

  lemma LineHalts(c: Config, blocks: seq<Block>, lines: seq<Line>, raw: seq<byte>, rest: seq<byte>, error: Error)
    requires (forall i :: 0 <= i < |blocks| ==> BlockFits(c, blocks[i])) && AllTaken(c, [], EventsOf(blocks))
    requires (forall i :: 0 <= i < |lines| ==> LineFits(c, lines[i])) && |Collected(lines)| <= c.maxEvent
    requires LineEnd(raw) == |raw| && Process(c, Collected(lines), EventsOf(blocks), raw) == Halt(error, EventsOf(blocks))
    ensures Outcomes(c, [StreamBytes(blocks) + (LinesBytes(lines) + (raw + [LF] + rest))]) == Outcome(EventsOf(blocks), Err(error))
  {
    hide Process, Drain, LineFits, BlockFits, LinesBytes, StreamBytes, Collected, EventsOf, AllTaken, LineEnd, Outcomes;
    var data, events := Collected(lines), EventsOf(blocks);
    var line := raw + [LF] + rest;
    var tail := LinesBytes(lines) + line;
    assert [] + events == events && [] + data == data;
    BlocksEmit(c, blocks, tail, []);
    LinesAdd(c, lines, line, [], events);
    DrainLine(c, raw, rest, data, events);
    LineInside(StreamBytes(blocks), LinesBytes(lines), raw, rest);
    OnePush(c, StreamBytes(blocks) + tail);
    Halted(c, error, rest, events);
  }

  lemma LineInside(a: seq<byte>, b: seq<byte>, raw: seq<byte>, rest: seq<byte>)
    ensures Terminated(a + (b + (raw + [LF] + rest)))
  {
    hide LineEnd;
    assert (a + (b + (raw + [LF] + rest)))[|a| + |b| + |raw|] == LF;
  }

  lemma Halted(c: Config, error: Error, rest: seq<byte>, events: seq<seq<byte>>)
    ensures Ended(Drain(c, After(Halt(error, events), rest))) == Outcome(events, Err(error))
  {
  }

  lemma PlainLine(line: seq<byte>, crlf: bool)
    requires Plain(line, crlf)
    ensures LineEnd(line + Return(crlf)) == |line + Return(crlf)| && WithoutCr(line + Return(crlf)) == line
  {
    var raw := line + Return(crlf);
    if crlf {
      assert raw[|raw| - 1] == CR && raw[..|raw| - 1] == line;
    } else {
      assert raw == line;
    }
    NoLine(raw);
  }

  lemma WhyHalts(c: Config, data: seq<byte>, events: seq<seq<byte>>, line: seq<byte>, crlf: bool)
    requires Plain(line, crlf) && line != []
    ensures var step := Process(c, data, events, line + Return(crlf));
            && (|line| > c.maxLine ==> step == Halt(LineTooLarge, events))
            && (|line| <= c.maxLine && !Valid(line) ==> step == Halt(InvalidUtf8, events))
            && (|line| <= c.maxLine && Valid(line) && Unlabelled(line) ==> step == Halt(MalformedField, events))
            && (forall l: Line :: LineFits(c, l) && l.IsData() && line == Body(l) && |data + l.text| + 1 > c.maxEvent ==>
                  step == Halt(EventTooLarge, events))
  {
    hide Valid, DataValue, Ignored, LineFits, Body, WithoutCr, LineEnd, Plain;
    PlainLine(line, crlf);
    if Unlabelled(line) { NoLabel(line); }
    hide Unlabelled;
    forall l: Line | LineFits(c, l) && l.IsData() && line == Body(l) && |data + l.text| + 1 > c.maxEvent
      ensures Process(c, data, events, line + Return(crlf)) == Halt(EventTooLarge, events)
    {
      DataTooLarge(c, data, events, l, crlf);
    }
  }

  lemma NoLabel(line: seq<byte>)
    requires Unlabelled(line)
    ensures !(DATA <= line) && !Ignored(line)
  {
    assert !(Label(Tight) <= line) && !(Label(Comment) <= line) && !(Label(EventName) <= line);
    assert !(Label(Identifier) <= line) && !(Label(RetryTime) <= line);
  }

  lemma DataTooLarge(c: Config, data: seq<byte>, events: seq<seq<byte>>, l: Line, crlf: bool)
    requires LineFits(c, l) && l.IsData() && Plain(Body(l), crlf) && |data + l.text| + 1 > c.maxEvent
    ensures Process(c, data, events, Body(l) + Return(crlf)) == Halt(EventTooLarge, events)
  {
    BodyIsLine(c, l);
    KindOfBody(l);
    PlainLine(Body(l), crlf);
    hide Valid, DataValue, Ignored, WithoutCr, LineEnd, Body;
  }

  /** An event the consumer refuses is the last one, and its refusal ends the stream. */
  lemma RefusedEventStops(c: Config, blocks: seq<Block>, b: Block, rest: seq<byte>)
    requires (forall i :: 0 <= i < |blocks| ==> BlockFits(c, blocks[i])) && AllTaken(c, [], EventsOf(blocks))
    requires BlockFits(c, b) && DataTexts(b.lines) != [] && !c.accept(EventsOf(blocks) + [JoinedLines(DataTexts(b.lines))])
    ensures Outcomes(c, [StreamBytes(blocks) + (LinesBytes(b.lines) + (Return(b.crlf) + [LF] + rest))])
            == Outcome(EventsOf(blocks) + [JoinedLines(DataTexts(b.lines))], Err(Refused))
  {
    hide Process, Drain, LineFits, LinesBytes, StreamBytes, EventsOf, AllTaken, LineEnd, Outcomes, Return;
    var data, events := Collected(b.lines), EventsOf(blocks);
    var line := Return(b.crlf) + [LF] + rest;
    CollectedIsJoined(b.lines);
    hide Collected;
    assert [] + events == events && [] + data == data;
    BlocksEmit(c, blocks, LinesBytes(b.lines) + line, []);
    LinesAdd(c, b.lines, line, [], events);
    assert data[..|data| - 1] == JoinedLines(DataTexts(b.lines));
    RefusedLine(c, b.crlf, data, events);
    DrainLine(c, Return(b.crlf), rest, data, events);
    LineInside(StreamBytes(blocks), LinesBytes(b.lines), Return(b.crlf), rest);
    OnePush(c, StreamBytes(blocks) + (LinesBytes(b.lines) + line));
    Halted(c, Refused, rest, events + [JoinedLines(DataTexts(b.lines))]);
  }

  lemma RefusedLine(c: Config, crlf: bool, data: seq<byte>, emitted: seq<seq<byte>>)
    requires data != [] && !c.accept(emitted + [data[..|data| - 1]])
    ensures LineEnd(Return(crlf)) == |Return(crlf)|
    ensures Process(c, data, emitted, Return(crlf)) == Halt(Refused, emitted + [data[..|data| - 1]])
  {
    assert Valid([]);
    assert WithoutCr(Return(crlf)) == [];
    NoLine(Return(crlf));
  }

  /** An event without its empty line leaves the stream truncated. */
  lemma UnfinishedIsTruncated(c: Config, blocks: seq<Block>, lines: seq<Line>)
    requires (forall i :: 0 <= i < |blocks| ==> BlockFits(c, blocks[i])) && AllTaken(c, [], EventsOf(blocks))
    requires (forall i :: 0 <= i < |lines| ==> LineFits(c, lines[i])) && 0 < |Collected(lines)| <= c.maxEvent
    ensures Outcomes(c, [StreamBytes(blocks) + LinesBytes(lines)]) == Outcome(EventsOf(blocks), Err(Truncated))
  {
    hide LineFits, BlockFits, StreamBytes, Process, EventsOf, AllTaken, LineEnd, Drain, Outcomes;
    var events, data := EventsOf(blocks), Collected(lines);
    assert [] + events == events && [] + data == data && LinesBytes(lines) + [] == LinesBytes(lines);
    BlocksEmit(c, blocks, LinesBytes(lines), []);
    LinesAdd(c, lines, [], [], events);
    FirstLine(lines, []);
    hide LinesBytes, Collected;
    LineInside(StreamBytes(blocks), [], Body(lines[0]) + Return(lines[0].crlf), LinesBytes(lines[1..]) + []);
    assert [] + LinesBytes(lines) == LinesBytes(lines);
    OnePush(c, StreamBytes(blocks) + LinesBytes(lines));
    LeftOver(c, data, events);
  }
}
