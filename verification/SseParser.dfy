/** The server-sent-event framer: a strict subset of sections 9.2.5 and 9.2.6 of the WHATWG HTML Living
    Standard, fed in pieces of any size. */
module SseParser {
  import opened Prelude
  import opened Bytes
  import opened Utf8

  datatype Error = LineTooLarge | EventTooLarge | InvalidUtf8 | MalformedField | Truncated | Refused

  const LF: byte := 10
  const CR: byte := 13
  const SPACE: byte := 32
  const COLON: byte := 58
  const DATA: seq<byte> := [100, 97, 116, 97, 58]
  const EVENT: seq<byte> := [101, 118, 101, 110, 116, 58]
  const ID: seq<byte> := [105, 100, 58]
  const RETRY: seq<byte> := [114, 101, 116, 114, 121, 58]

  /** Bounds, and the consumer of events: it answers from all events so far, the new one last. */
  datatype Config = Config(maxLine: nat, maxEvent: nat, accept: seq<seq<byte>> -> bool)

  // ---- One line ----

  datatype Step = Continue(data: seq<byte>, emitted: seq<seq<byte>>) | Halt(error: Error, events: seq<seq<byte>>)

  function WithoutCr(raw: seq<byte>): seq<byte> {
    if raw != [] && raw[|raw| - 1] == CR then raw[..|raw| - 1] else raw
  }

  function DataValue(line: seq<byte>): seq<byte>
    requires DATA <= line
  {
    if |line| > |DATA| && line[|DATA|] == SPACE then line[|DATA| + 1..] else line[|DATA|..]
  }

  predicate Ignored(line: seq<byte>) {
    [COLON] <= line || EVENT <= line || ID <= line || RETRY <= line
  }

  /** What a complete line, without its line feed, does. */
  function Process(c: Config, data: seq<byte>, emitted: seq<seq<byte>>, raw: seq<byte>): Step {
    var line := WithoutCr(raw);
    if |line| > c.maxLine then Halt(LineTooLarge, emitted)
    else if !Valid(line) then Halt(InvalidUtf8, emitted)
    else if line == [] then
      if data == [] then Continue(data, emitted)
      else
        var event := data[..|data| - 1];
        if c.accept(emitted + [event]) then Continue([], emitted + [event]) else Halt(Refused, emitted + [event])
    else if DATA <= line then
      var grown := data + DataValue(line) + [LF];
      if |grown| > c.maxEvent then Halt(EventTooLarge, emitted) else Continue(grown, emitted)
    else if Ignored(line) then Continue(data, emitted)
    else Halt(MalformedField, emitted)
  }

  // ---- A buffer ----

  function LineEnd(s: seq<byte>): nat
    ensures LineEnd(s) <= |s|
    ensures LineEnd(s) < |s| ==> s[LineEnd(s)] == LF
    ensures forall i :: 0 <= i < LineEnd(s) ==> s[i] != LF
  {
    if s == [] then 0 else if s[0] == LF then 0 else 1 + LineEnd(s[1..])
  }

  predicate Terminated(s: seq<byte>) { LineEnd(s) < |s| }

  datatype State =
    | Going(pending: seq<byte>, data: seq<byte>, emitted: seq<seq<byte>>)
    | Stopped(error: Error, events: seq<seq<byte>>)
  {
    function Events(): seq<seq<byte>> { if Going? then emitted else events }
  }

  /** The framer after a line, with the rest of the buffer before it. */
  function After(step: Step, rest: seq<byte>): State {
    match step
    case Halt(error, events) => Stopped(error, events)
    case Continue(data, emitted) => Going(rest, data, emitted)
  }

  const START: State := Going([], [], [])

  /** Takes complete lines off the buffer until none is left or one stops the run. */
  function Drain(c: Config, s: State): State
    decreases if s.Going? then |s.pending| else 0
  {
    if s.Stopped? || !Terminated(s.pending) then s
    else
      var end := LineEnd(s.pending);
      Drain(c, After(Process(c, s.data, s.emitted, s.pending[..end]), s.pending[end + 1..]))
  }

  /** Bytes added to the buffer, drained without the early length check. */
  function Feed(c: Config, s: State, bytes: seq<byte>): State {
    if s.Stopped? then s else Drain(c, s.(pending := s.pending + bytes))
  }

  /** The early check: an unfinished line that is already too long. */
  predicate Swollen(c: Config, buffer: seq<byte>) {
    |buffer| > c.maxLine && !Terminated(buffer)
  }

  /** One read handed to the framer. */
  function Pushed(c: Config, s: State, bytes: seq<byte>): State {
    if s.Stopped? then s
    else if Swollen(c, s.pending + bytes) then Stopped(LineTooLarge, s.emitted)
    else Feed(c, s, bytes)
  }

  /** All reads in turn. */
  function PushedAll(c: Config, cuts: seq<seq<byte>>): State {
    if cuts == [] then START else Pushed(c, PushedAll(c, cuts[..|cuts| - 1]), cuts[|cuts| - 1])
  }

  function Join(cuts: seq<seq<byte>>): seq<byte> {
    if cuts == [] then [] else Join(cuts[..|cuts| - 1]) + cuts[|cuts| - 1]
  }

  /** Events emitted, and how the stream ended. */
  datatype Outcome = Outcome(events: seq<seq<byte>>, verdict: Result<(), Error>)

  function Ended(s: State): Outcome {
    match s
    case Stopped(error, events) => Outcome(events, Err(error))
    case Going(pending, data, emitted) => Outcome(emitted, if pending == [] && data == [] then Ok(()) else Err(Truncated))
  }

  function Outcomes(c: Config, cuts: seq<seq<byte>>): Outcome { Ended(PushedAll(c, cuts)) }

  // ---- Draining in pieces ----

  lemma {:induction false} LineEndOfConcat(a: seq<byte>, b: seq<byte>)
    ensures LineEnd(a + b) == if Terminated(a) then LineEnd(a) else |a| + LineEnd(b)
  {
    if a == [] {
      assert a + b == b;
    } else {
      LineEndOfConcat(a[1..], b);
      assert (a + b)[1..] == a[1..] + b;
    }
  }

  lemma {:induction false} DrainedHasNoLine(c: Config, s: State)
    ensures Drain(c, s).Going? ==> !Terminated(Drain(c, s).pending)
    decreases if s.Going? then |s.pending| else 0
  {
    hide Process, LineEnd;
    if s.Going? && Terminated(s.pending) {
      var end := LineEnd(s.pending);
      DrainedHasNoLine(c, After(Process(c, s.data, s.emitted, s.pending[..end]), s.pending[end + 1..]));
    }
  }

  /** One line off the front. */
  lemma DrainLine(c: Config, raw: seq<byte>, rest: seq<byte>, data: seq<byte>, emitted: seq<seq<byte>>)
    requires LineEnd(raw) == |raw|
    ensures Drain(c, Going(raw + [LF] + rest, data, emitted)) == Drain(c, After(Process(c, data, emitted, raw), rest))
  {
    hide Process, After;
    var p := raw + [LF] + rest;
    assert LineEnd(p) == |raw| by {
      LineEndOfConcat(raw, [LF] + rest);
      assert p == raw + ([LF] + rest);
    }
    hide LineEnd;
    assert p[..|raw|] == raw && p[|raw| + 1..] == rest;
  }

  /** Feeding in two pieces is feeding at once. */
  lemma {:induction false} FeedSplits(c: Config, s: State, a: seq<byte>, b: seq<byte>)
    ensures Feed(c, s, a + b) == Feed(c, Feed(c, s, a), b)
    decreases if s.Going? then |s.pending| + |a| else 0
  {
    hide Process;
    if s.Going? {
      var front := s.pending + a;
      assert s.pending + (a + b) == front + b;
      if Terminated(front) {
        var end := LineEnd(front);
        var raw, rest := front[..end], front[end + 1..];
        NoLine(raw);
        assert front == raw + [LF] + rest && front + b == raw + [LF] + (rest + b);
        DrainLine(c, raw, rest, s.data, s.emitted);
        DrainLine(c, raw, rest + b, s.data, s.emitted);
        var step := Process(c, s.data, s.emitted, raw);
        if step.Continue? {
          FeedSplits(c, Going(rest, step.data, step.emitted), [], b);
          assert rest + [] == rest && [] + b == b;
        }
      }
    }
  }

  /** The unfinished line of a running framer is the end of its buffer, and everything before it was
      taken line by line. */
  lemma {:induction false} PendingIsTail(c: Config, s: State) returns (before: seq<byte>)
    requires s.Going? && Drain(c, s).Going?
    ensures s.pending == before + Drain(c, s).pending
    ensures Drain(c, Going(before, s.data, s.emitted)) == Going([], Drain(c, s).data, Drain(c, s).emitted)
    ensures before != [] ==> before[|before| - 1] == LF
    decreases |s.pending|
  {
    hide Process;
    var p := s.pending;
    if Terminated(p) {
      var end := LineEnd(p);
      var raw, rest := p[..end], p[end + 1..];
      NoLine(raw);
      assert p == raw + [LF] + rest;
      DrainLine(c, raw, rest, s.data, s.emitted);
      hide Drain;
      var step := Process(c, s.data, s.emitted, raw);
      var inner := TailAfter(c, s, step, rest);
      DrainLine(c, raw, inner, s.data, s.emitted);
      Regroup(raw + [LF], inner, Drain(c, s).pending);
      before := raw + [LF] + inner;
    } else {
      before := [];
      assert [] + p == p;
    }
  }

  lemma Regroup(a: seq<byte>, b: seq<byte>, d: seq<byte>)
    ensures a + (b + d) == a + b + d
    ensures a != [] && b == [] ==> (a + b)[|a + b| - 1] == a[|a| - 1]
    ensures b != [] ==> (a + b)[|a + b| - 1] == b[|b| - 1]
  {
  }

  lemma {:induction false} TailAfter(c: Config, s: State, step: Step, rest: seq<byte>) returns (before: seq<byte>)
    requires s.Going? && |rest| < |s.pending| && Drain(c, s) == Drain(c, After(step, rest)) && Drain(c, s).Going?
    ensures step.Continue? && rest == before + Drain(c, s).pending
    ensures Drain(c, After(step, before)) == Going([], Drain(c, s).data, Drain(c, s).emitted)
    ensures before != [] ==> before[|before| - 1] == LF
    decreases |s.pending|, 0
  {
    before := PendingIsTail(c, Going(rest, step.data, step.emitted));
  }

  lemma {:induction false} NoLine(s: seq<byte>)
    requires forall i :: 0 <= i < |s| ==> s[i] != LF
    ensures LineEnd(s) == |s|
  {
    if s != [] {
      NoLine(s[1..]);
    }
  }

  lemma ProcessGrows(c: Config, data: seq<byte>, emitted: seq<seq<byte>>, raw: seq<byte>, rest: seq<byte>)
    ensures emitted <= After(Process(c, data, emitted, raw), rest).Events()
  {
  }

  /** Events are only ever added. */
  lemma {:induction false} EventsGrow(c: Config, s: State)
    ensures s.Events() <= Drain(c, s).Events()
    decreases if s.Going? then |s.pending| else 0
  {
    hide Process;
    if s.Going? && Terminated(s.pending) {
      var end := LineEnd(s.pending);
      var raw, rest := s.pending[..end], s.pending[end + 1..];
      ProcessGrows(c, s.data, s.emitted, raw, rest);
      EventsGrow(c, After(Process(c, s.data, s.emitted, raw), rest));
    }
  }

  // ---- Which streams depend on the cuts ----

  /** Some line that the framer reaches, finished or not, is longer than the bound, carriage return
      included. */
  ghost predicate Overlong(c: Config, stream: seq<byte>) {
    exists n :: 0 <= n <= |stream| && LongAt(c, stream, n)
  }

  ghost predicate LongAt(c: Config, stream: seq<byte>, n: nat)
    requires n <= |stream|
  {
    var s := Feed(c, START, stream[..n]);
    s.Going? && |s.pending| > c.maxLine
  }

  lemma StartFeeds(c: Config, bytes: seq<byte>)
    ensures Feed(c, START, bytes) == Drain(c, Going(bytes, [], []))
    ensures Feed(c, START, []) == START
  {
    hide Process, After;
    assert [] + bytes == bytes;
    assert !Terminated([]);
    hide LineEnd;
  }

  /** An early stop happens at a line that is already too long. */
  ghost predicate StoppedEarly(c: Config, stream: seq<byte>, s: State) {
    s.Stopped? && s.error == LineTooLarge
    && exists n :: 0 <= n <= |stream| && LongAt(c, stream, n) && s.events == Feed(c, START, stream[..n]).emitted
  }

  /** A run over reads is the uninterrupted run, or stopped early. */
  lemma {:induction false} EveryRun(c: Config, cuts: seq<seq<byte>>)
    ensures PushedAll(c, cuts) == Feed(c, START, Join(cuts)) || StoppedEarly(c, Join(cuts), PushedAll(c, cuts))
  {
    hide Drain, Process;
    if cuts == [] {
      StartFeeds(c, []);
    } else {
      var front, last := cuts[..|cuts| - 1], cuts[|cuts| - 1];
      EveryRun(c, front);
      var s := PushedAll(c, front);
      FeedSplits(c, START, Join(front), last);
      if s == Feed(c, START, Join(front)) {
        if s.Going? && Swollen(c, s.pending + last) {
          SwollenIsLong(c, s, last);
          var n := |Join(cuts)|;
          assert Join(cuts)[..n] == Join(cuts);
          assert LongAt(c, Join(cuts), n);
        }
      } else {
        StoppedStays(c, Join(front), Join(cuts), s);
      }
    }
  }

  lemma SwollenIsLong(c: Config, s: State, last: seq<byte>)
    requires s.Going? && Swollen(c, s.pending + last)
    ensures Feed(c, s, last) == s.(pending := s.pending + last)
  {
  }

  lemma StoppedStays(c: Config, stream: seq<byte>, longer: seq<byte>, s: State)
    requires stream <= longer && StoppedEarly(c, stream, s)
    ensures StoppedEarly(c, longer, s)
  {
    var n :| 0 <= n <= |stream| && LongAt(c, stream, n) && s.events == Feed(c, START, stream[..n]).emitted;
    assert longer[..n] == stream[..n];
    assert LongAt(c, longer, n);
  }

  lemma OneCut(c: Config, stream: seq<byte>)
    ensures Join([stream]) == stream
    ensures PushedAll(c, [stream]) == Pushed(c, START, stream)
  {
    assert [stream][..0] == [];
    assert [] + stream == stream;
  }

  /** A cut run that ends cleanly emitted exactly what one push of the whole stream emits, which ends
      cleanly too. */
  lemma CleanRunsAgree(c: Config, cuts: seq<seq<byte>>)
    requires Outcomes(c, cuts).verdict.Ok?
    ensures Outcomes(c, [Join(cuts)]) == Outcomes(c, cuts)
  {
    hide Drain, Process;
    EveryRun(c, cuts);
    OneCut(c, Join(cuts));
    var s := Feed(c, START, Join(cuts));
    if Swollen(c, [] + Join(cuts)) {
      SwollenIsLong(c, START, Join(cuts));
    }
  }

  /** Without an overlong line, every way of cutting gives the same events and the same verdict. */
  lemma CalmRunsAgree(c: Config, cuts: seq<seq<byte>>)
    requires !Overlong(c, Join(cuts))
    ensures Outcomes(c, cuts) == Outcomes(c, [Join(cuts)])
  {
    hide Drain, Process, LongAt;
    EveryRun(c, cuts);
    OneCut(c, Join(cuts));
    EveryRun(c, [Join(cuts)]);
  }

  /** All pieces are nonempty, as reads are. */
  predicate Reads(cuts: seq<seq<byte>>) { forall i :: 0 <= i < |cuts| ==> cuts[i] != [] }

  /** The reads that end in the middle of an overlong line stop there. */
  lemma LongLineStops(c: Config, stream: seq<byte>, n: nat) returns (cuts: seq<seq<byte>>)
    requires n <= |stream| && LongAt(c, stream, n)
    ensures Reads(cuts) && Join(cuts) == stream
    ensures Outcomes(c, cuts) == Outcome(Feed(c, START, stream[..n]).emitted, Err(LineTooLarge))
  {
    hide Process, Drain;
    var before, line := LongLine(c, stream[..n]);
    var rest := stream[n..];
    assert stream == before + line + rest;
    cuts := if before == [] then [line] else [before, line];
    JoinsTwo(before, line);
    LineStops(c, before, line);
    if rest != [] {
      assert (cuts + [rest])[..|cuts|] == cuts;
      cuts := cuts + [rest];
    }
  }

  lemma LongLine(c: Config, bytes: seq<byte>) returns (before: seq<byte>, line: seq<byte>)
    requires Feed(c, START, bytes).Going? && |Feed(c, START, bytes).pending| > c.maxLine
    ensures bytes == before + line && |line| > c.maxLine && !Terminated(line)
    ensures before != [] ==> Terminated(before)
    ensures Feed(c, START, before).Going? && Feed(c, START, before).pending == []
    ensures Feed(c, START, before).emitted == Feed(c, START, bytes).emitted
  {
    hide Process;
    StartFeeds(c, bytes);
    var s := Going(bytes, [], []);
    before := PendingIsTail(c, s);
    DrainedHasNoLine(c, s);
    line := Drain(c, s).pending;
    StartFeeds(c, before);
    hide Drain;
    if before != [] {
      HasLine(before);
    }
  }

  lemma LineStops(c: Config, before: seq<byte>, line: seq<byte>)
    requires |line| > c.maxLine && !Terminated(line)
    requires before != [] ==> Terminated(before)
    requires Feed(c, START, before).Going? && Feed(c, START, before).pending == []
    ensures PushedAll(c, if before == [] then [line] else [before, line]) == Stopped(LineTooLarge, Feed(c, START, before).emitted)
  {
    hide Process, Drain;
    StartFeeds(c, []);
    assert [] + line == line && [] + before == before;
    OneCut(c, line);
    if before != [] {
      OneCut(c, before);
      assert [before, line][..1] == [before];
    }
  }

  lemma JoinsTwo(a: seq<byte>, b: seq<byte>)
    ensures Join([b]) == b && Join([a, b]) == a + b
  {
    assert [a, b][..1] == [a] && [a][..0] == [] && [b][..0] == [];
    assert [] + a == a && [] + b == b;
  }

  lemma HasLine(s: seq<byte>)
    requires s != [] && s[|s| - 1] == LF
    ensures Terminated(s)
  {
  }

  ghost predicate SameForAllCuts(c: Config, stream: seq<byte>) {
    forall cuts :: Reads(cuts) && Join(cuts) == stream ==> Outcomes(c, cuts) == Outcomes(c, [stream])
  }

  /** Unless one push of the whole stream already finds a line too long, the reads do not matter exactly
      when no line the framer reaches is longer than the bound, its carriage return counted. */
  lemma CutsDoNotMatter(c: Config, stream: seq<byte>)
    requires Outcomes(c, [stream]).verdict != Err(LineTooLarge)
    ensures SameForAllCuts(c, stream) <==> !Overlong(c, stream)
  {
    hide Drain, Process, LongAt;
    if Overlong(c, stream) {
      var n :| 0 <= n <= |stream| && LongAt(c, stream, n);
      var cuts := LongLineStops(c, stream, n);
      assert Outcomes(c, cuts) != Outcomes(c, [stream]);
    } else {
      forall cuts | Reads(cuts) && Join(cuts) == stream
        ensures Outcomes(c, cuts) == Outcomes(c, [stream])
      {
        CalmRunsAgree(c, cuts);
      }
    }
  }

  /** For every stream, the reads do not matter exactly when stopping at any line that grows too long
      is what one push of the whole stream does. */
  lemma AllCutsAgree(c: Config, stream: seq<byte>)
    ensures SameForAllCuts(c, stream) <==>
              forall n :: 0 <= n <= |stream| && LongAt(c, stream, n) ==>
                Outcome(Feed(c, START, stream[..n]).emitted, Err(LineTooLarge)) == Outcomes(c, [stream])
  {
    hide Drain, Process;
    if SameForAllCuts(c, stream) {
      forall n | 0 <= n <= |stream| && LongAt(c, stream, n)
        ensures Outcome(Feed(c, START, stream[..n]).emitted, Err(LineTooLarge)) == Outcomes(c, [stream])
      {
        var cuts := LongLineStops(c, stream, n);
      }
    }
    if forall n :: 0 <= n <= |stream| && LongAt(c, stream, n) ==>
         Outcome(Feed(c, START, stream[..n]).emitted, Err(LineTooLarge)) == Outcomes(c, [stream]) {
      forall cuts | Reads(cuts) && Join(cuts) == stream
        ensures Outcomes(c, cuts) == Outcomes(c, [stream])
      {
        OneRunAgrees(c, cuts);
      }
    }
  }

  lemma OneRunAgrees(c: Config, cuts: seq<seq<byte>>)
    requires forall n :: 0 <= n <= |Join(cuts)| && LongAt(c, Join(cuts), n) ==>
               Outcome(Feed(c, START, Join(cuts)[..n]).emitted, Err(LineTooLarge)) == Outcomes(c, [Join(cuts)])
    ensures Outcomes(c, cuts) == Outcomes(c, [Join(cuts)])
  {
    hide Drain, Process, Outcomes;
    var stream := Join(cuts);
    EveryRun(c, cuts);
    if StoppedEarly(c, stream, PushedAll(c, cuts)) {
      EarlyOutcome(c, cuts);
    } else {
      UncutOutcome(c, cuts);
    }
  }

  lemma EarlyOutcome(c: Config, cuts: seq<seq<byte>>)
    requires StoppedEarly(c, Join(cuts), PushedAll(c, cuts))
    ensures exists n :: 0 <= n <= |Join(cuts)| && LongAt(c, Join(cuts), n)
              && Outcomes(c, cuts) == Outcome(Feed(c, START, Join(cuts)[..n]).emitted, Err(LineTooLarge))
  {
    hide Drain, Process;
  }

  lemma UncutOutcome(c: Config, cuts: seq<seq<byte>>)
    requires PushedAll(c, cuts) == Feed(c, START, Join(cuts))
    ensures Outcomes(c, cuts) == Outcomes(c, [Join(cuts)])
  {
    hide Drain, Process;
    OneCut(c, Join(cuts));
    assert [] + Join(cuts) == Join(cuts);
    if Swollen(c, Join(cuts)) {
      UnfinishedStops(c, cuts);
    }
  }

  /** And when one push does find a line too long, every run ends that way, with the events of a
      beginning of the stream. */
  lemma TooLongForAllCuts(c: Config, cuts: seq<seq<byte>>)
    requires Outcomes(c, [Join(cuts)]).verdict == Err(LineTooLarge)
    ensures Outcomes(c, cuts).verdict == Err(LineTooLarge)
    ensures Outcomes(c, cuts).events <= Outcomes(c, [Join(cuts)]).events
  {
    hide Drain, Process;
    var stream := Join(cuts);
    EveryRun(c, cuts);
    OneCut(c, stream);
    if Swollen(c, [] + stream) {
      assert [] + stream == stream;
      UnfinishedStops(c, cuts);
    } else if StoppedEarly(c, stream, PushedAll(c, cuts)) {
      var n :| 0 <= n <= |stream| && LongAt(c, stream, n) && PushedAll(c, cuts).events == Feed(c, START, stream[..n]).emitted;
      EventsOfBeginning(c, stream, n);
    }
  }

  lemma EventsOfBeginning(c: Config, stream: seq<byte>, n: nat)
    requires n <= |stream|
    ensures Feed(c, START, stream[..n]).Events() <= Feed(c, START, stream).Events()
  {
    FeedSplits(c, START, stream[..n], stream[n..]);
    assert stream == stream[..n] + stream[n..];
    var s := Feed(c, START, stream[..n]);
    if s.Going? {
      EventsGrow(c, s.(pending := s.pending + stream[n..]));
    }
  }

  /** A stream without any line feed that is too long stops every run, at the last read if not before. */
  lemma {:induction false} UnfinishedStops(c: Config, cuts: seq<seq<byte>>)
    requires !Terminated(Join(cuts))
    ensures |Join(cuts)| > c.maxLine ==> PushedAll(c, cuts) == Stopped(LineTooLarge, [])
    ensures PushedAll(c, cuts).Going? ==> PushedAll(c, cuts) == Going(Join(cuts), [], [])
    ensures PushedAll(c, cuts).Stopped? ==> PushedAll(c, cuts) == Stopped(LineTooLarge, [])
  {
    hide Process;
    if cuts != [] {
      var front, last := cuts[..|cuts| - 1], cuts[|cuts| - 1];
      LineEndOfConcat(Join(front), last);
      UnfinishedStops(c, front);
    }
  }

  // ---- Lines of a stream ----

  /** Every stretch without a line feed fits the bound. */
  ghost predicate LinesWithin(stream: seq<byte>, bound: nat) {
    forall i, j :: 0 <= i <= j <= |stream| && NoLf(stream, i, j) ==> j - i <= bound
  }

  ghost predicate NoLf(stream: seq<byte>, i: nat, j: nat)
    requires i <= j <= |stream|
  {
    forall k :: i <= k < j ==> stream[k] != LF
  }

  lemma HeldLine(c: Config, bytes: seq<byte>) returns (before: seq<byte>)
    requires Feed(c, START, bytes).Going?
    ensures bytes == before + Feed(c, START, bytes).pending && !Terminated(Feed(c, START, bytes).pending)
    ensures before != [] ==> before[|before| - 1] == LF
  {
    hide Process;
    StartFeeds(c, bytes);
    before := PendingIsTail(c, Going(bytes, [], []));
    DrainedHasNoLine(c, Going(bytes, [], []));
  }

  /** A line the framer holds is a stretch of the stream. */
  lemma HeldIsAStretch(c: Config, stream: seq<byte>, n: nat)
    requires n <= |stream| && Feed(c, START, stream[..n]).Going?
    ensures |Feed(c, START, stream[..n]).pending| <= n
    ensures NoLf(stream, n - |Feed(c, START, stream[..n]).pending|, n)
    ensures |Feed(c, START, stream[..n]).pending| < n ==> stream[n - |Feed(c, START, stream[..n]).pending| - 1] == LF
  {
    hide Process, Drain, Feed;
    var before := HeldLine(c, stream[..n]);
    var line := Feed(c, START, stream[..n]).pending;
    assert forall k :: 0 <= k < |line| ==> stream[|before| + k] == line[k];
    if before != [] {
      assert stream[|before| - 1] == before[|before| - 1];
    }
  }

  /** If every line fits, carriage return counted, no line is overlong. */
  lemma ShortLinesAreCalm(c: Config, stream: seq<byte>)
    requires LinesWithin(stream, c.maxLine)
    ensures !Overlong(c, stream)
  {
    hide Drain, Process;
    forall n | 0 <= n <= |stream|
      ensures !LongAt(c, stream, n)
    {
      if Feed(c, START, stream[..n]).Going? {
        HeldIsAStretch(c, stream, n);
      }
    }
  }

  /** If every line fits, all cuts give the same events and the same verdict, whatever the stream. */
  lemma ShortLinesDoNotMatter(c: Config, cuts: seq<seq<byte>>)
    requires LinesWithin(Join(cuts), c.maxLine)
    ensures Outcomes(c, cuts) == Outcomes(c, [Join(cuts)])
  {
    hide *;
    ShortLinesAreCalm(c, Join(cuts));
    CalmRunsAgree(c, cuts);
  }

  /** For streams that one push accepts, the reads do not matter exactly when every line fits, its
      carriage return counted. */
  lemma AcceptedStreams(c: Config, stream: seq<byte>)
    requires Outcomes(c, [stream]).verdict.Ok?
    ensures SameForAllCuts(c, stream) <==> LinesWithin(stream, c.maxLine)
  {
    hide Drain, Process, LongAt;
    CutsDoNotMatter(c, stream);
    if LinesWithin(stream, c.maxLine) {
      ShortLinesAreCalm(c, stream);
    } else {
      var i, j :| 0 <= i <= j <= |stream| && NoLf(stream, i, j) && j - i > c.maxLine;
      OneCut(c, stream);
      RunningAtEveryPoint(c, stream, j);
      HeldIsAStretch(c, stream, j);
      LongThere(c, stream, i, j);
    }
  }

  lemma LongThere(c: Config, stream: seq<byte>, i: nat, j: nat)
    requires i <= j <= |stream| && NoLf(stream, i, j) && j - i > c.maxLine
    requires Feed(c, START, stream[..j]).Going?
    requires |Feed(c, START, stream[..j]).pending| <= j
    requires |Feed(c, START, stream[..j]).pending| < j ==> stream[j - |Feed(c, START, stream[..j]).pending| - 1] == LF
    ensures Overlong(c, stream)
  {
    hide Drain, Process;
    assert LongAt(c, stream, j);
  }

  lemma RunningAtEveryPoint(c: Config, stream: seq<byte>, n: nat)
    requires n <= |stream| && Pushed(c, START, stream).Going?
    ensures Feed(c, START, stream[..n]).Going?
  {
    FeedSplits(c, START, stream[..n], stream[n..]);
    assert stream == stream[..n] + stream[n..];
  }

  /** `data:x`, a carriage return, a line feed and an empty line. */
  const SAMPLE: seq<byte> := DATA + [120, CR] + [LF] + [LF]

  /** A stream on which the reads matter: with a bound of six bytes its first line fits without its
      carriage return only, so one push emits the event and a read that ends after the carriage return
      stops the run. */
  lemma CarriageReturnMatters(c: Config)
    requires c.maxLine == 6 && c.maxEvent >= 2 && c.accept([[120]])
    ensures Outcomes(c, [SAMPLE]) == Outcome([[120]], Ok(()))
    ensures !SameForAllCuts(c, SAMPLE)
  {
    hide Process, Drain, LinesWithin, SameForAllCuts;
    SampleRun(c);
    OneCut(c, SAMPLE);
    SampleIsLong();
    AcceptedStreams(c, SAMPLE);
  }

  lemma SampleIsLong()
    ensures !LinesWithin(SAMPLE, 6)
  {
    assert |SAMPLE| == 9;
    assert NoLf(SAMPLE, 0, 7) by {
      assert SAMPLE[0] == 100 && SAMPLE[1] == 97 && SAMPLE[2] == 116 && SAMPLE[3] == 97 && SAMPLE[4] == 58;
      assert SAMPLE[5] == 120 && SAMPLE[6] == CR;
    }
  }

  lemma SampleRun(c: Config)
    requires c.maxLine == 6 && c.maxEvent >= 2 && c.accept([[120]])
    ensures Pushed(c, START, SAMPLE) == Going([], [], [[120]])
  {
    hide Process;
    SampleLines(c);
    var raw := DATA + [120, CR];
    NoLine(raw);
    assert SAMPLE == raw + [LF] + [LF] == raw + ([LF] + [LF]);
    LineEndOfConcat(raw, [LF] + [LF]);
    StartFeeds(c, SAMPLE);
    DrainLine(c, raw, [LF], [], []);
    DrainLine(c, [], [], [120, LF], []);
    Unfinished(c, Going([], [], [[120]]));
    hide Drain;
    assert [] + [LF] + [] == [LF] && [] + SAMPLE == SAMPLE;
  }

  lemma SampleLines(c: Config)
    requires c.maxLine == 6 && c.maxEvent >= 2 && c.accept([[120]])
    ensures Process(c, [], [], DATA + [120, CR]) == Continue([120, LF], [])
    ensures Process(c, [120, LF], [], []) == Continue([], [[120]])
  {
    var raw := DATA + [120, CR];
    assert WithoutCr(raw) == DATA + [120];
    AsciiIsValid(DATA + [120]);
    assert DataValue(DATA + [120]) == [120];
    assert [120, LF][..1] == [120];
    assert [] + [[120]] == [[120]];
    assert [] + [120] + [LF] == [120, LF];
  }

  // ---- The framer ----

  /** Collected data is text with a line feed at its end. */
  ghost predicate DataIsText(data: seq<byte>) {
    data != [] ==> data[|data| - 1] == LF && Valid(data[..|data| - 1])
  }

  lemma DataStaysText(data: seq<byte>, line: seq<byte>)
    requires DataIsText(data) && Valid(line) && DATA <= line
    ensures DataIsText(data + DataValue(line) + [LF])
  {
    var value := DataValue(line);
    var field := line[..|line| - |value|];
    assert line == field + value;
    AfterAscii(field, value);
    if data == [] {
      assert data + value == value;
    } else {
      AsciiIsValid([LF]);
      ValidConcat(data[..|data| - 1], [LF]);
      assert data == data[..|data| - 1] + [LF];
      ValidConcat(data, value);
    }
    assert (data + value + [LF])[..|data + value|] == data + value;
  }

  /** What one complete line does to the collected data and the events. */
  method TakeLine(c: Config, data: seq<byte>, emitted: seq<seq<byte>>, raw: seq<byte>) returns (step: Step)
    requires DataIsText(data)
    ensures step == Process(c, data, emitted, raw)
    ensures step.Continue? ==> DataIsText(step.data)
  {
    var line := WithoutCr(raw);
    if |line| > c.maxLine { return Halt(LineTooLarge, emitted); }
    if !Valid(line) { return Halt(InvalidUtf8, emitted); }
    if line == [] {
      if data == [] { return Continue(data, emitted); }
      if data[|data| - 1] != LF { assert false; }
      var event := data[..|data| - 1];
      if !Valid(event) { assert false; }
      if !c.accept(emitted + [event]) { return Halt(Refused, emitted + [event]); }
      return Continue([], emitted + [event]);
    }
    if DATA <= line {
      DataStaysText(data, line);
      var grown := data + DataValue(line) + [LF];
      if |grown| > c.maxEvent { return Halt(EventTooLarge, emitted); }
      return Continue(grown, emitted);
    }
    if !Ignored(line) { return Halt(MalformedField, emitted); }
    return Continue(data, emitted);
  }

  class SseParser {
    var pending: seq<byte>
    var data: seq<byte>
    const config: Config

    constructor (config: Config)
      ensures this.config == config && Going(pending, data, []) == START && DataIsText(data)
    {
      this.config := config;
      pending, data := [], [];
    }

    /** Takes one read. Events already emitted are passed in and the new ones added. */
    method Push(bytes: seq<byte>, emitted: seq<seq<byte>>) returns (result: Result<(), Error>, events: seq<seq<byte>>)
      requires DataIsText(data)
      modifies this
      ensures result.Ok? ==> DataIsText(data)
      ensures Pushed(config, Going(old(pending), old(data), emitted), bytes)
              == if result.Ok? then Going(pending, data, events) else Stopped(result.error, events)
    {
      hide Drain, Process;
      events := emitted;
      pending := pending + bytes;
      if |pending| > config.maxLine && !Terminated(pending) { return Err(LineTooLarge), events; }
      ghost var fed := Drain(config, Going(pending, data, events));
      while Terminated(pending)
        invariant DataIsText(data) && Drain(config, Going(pending, data, events)) == fed
        decreases |pending|
      {
        var position := LineEnd(pending);
        var raw := pending[..position];
        NoLine(raw);
        DrainLine(config, raw, pending[position + 1..], data, events);
        assert pending == raw + [LF] + pending[position + 1..];
        pending := pending[position + 1..];
        var step := TakeLine(config, data, events, raw);
        if step.Halt? {
          StoppedDrains(config);
          return Err(step.error), step.events;
        }
        data, events := step.data, step.emitted;
      }
      Unfinished(config, Going(pending, data, events));
      return Ok(()), events;
    }

    /** The end of the stream. */
    method Finish() returns (result: Result<(), Error>)
      ensures forall emitted :: Ended(Going(pending, data, emitted)) == Outcome(emitted, result)
    {
      return if pending == [] && data == [] then Ok(()) else Err(Truncated);
    }
  }

  lemma StoppedDrains(c: Config)
    ensures forall error, events :: Drain(c, Stopped(error, events)) == Stopped(error, events)
  {
  }

  lemma Unfinished(c: Config, s: State)
    requires s.Going? && !Terminated(s.pending)
    ensures Drain(c, s) == s
  {
  }

  // ---- The body of a response ----

  /** One turn of the read loop: whether cancellation is seen before and after the read, and what the
      read gives, nothing being a transport failure and no bytes the end. */
  datatype Turn = Turn(cancelledBefore: bool, read: Option<seq<byte>>, cancelledAfter: bool)

  datatype BodyError = Cancelled | Transport | ResponseTooLarge | StreamFailed(error: Error)

  /** The turn brings bytes and nothing else. */
  predicate Smooth(turn: Turn) {
    !turn.cancelledBefore && !turn.cancelledAfter && turn.read.Some? && turn.read.value != []
  }

  function Taken(turns: seq<Turn>): seq<seq<byte>>
    requires forall i :: 0 <= i < |turns| ==> Smooth(turns[i])
  {
    seq(|turns|, i requires 0 <= i < |turns| && Smooth(turns[i]) => turns[i].read.value)
  }

  function BodyVerdict(verdict: Result<(), Error>): Result<(), BodyError> {
    if verdict.Err? then Err(StreamFailed(verdict.error)) else Ok(())
  }

  /** The first `n` turns went well: bytes every time, the total within bounds and the framer going. */
  ghost predicate WentWell(c: Config, maximum: u64, turns: seq<Turn>, n: nat) {
    && n <= |turns| && (forall i :: 0 <= i < n ==> Smooth(turns[i]))
    && |Join(Taken(turns[..n]))| <= maximum && PushedAll(c, Taken(turns[..n])).Going?
  }

  /** Why the loop ends after `n` turns, and with which events: cancellation comes before whatever the
      read brought, a failed or oversized read before the framer sees it. */
  ghost predicate EndsAfter(
    c: Config, maximum: u64, turns: seq<Turn>, n: nat, events: seq<seq<byte>>, verdict: Result<(), BodyError>)
    requires WentWell(c, maximum, turns, n)
  {
    var s := PushedAll(c, Taken(turns[..n]));
    if n == |turns| then events == s.Events() && verdict == BodyVerdict(Ended(s).verdict)
    else if turns[n].cancelledBefore || turns[n].cancelledAfter then events == s.Events() && verdict == Err(Cancelled)
    else if turns[n].read.None? then events == s.Events() && verdict == Err(Transport)
    else if turns[n].read.value == [] then events == s.Events() && verdict == BodyVerdict(Ended(s).verdict)
    else if |Join(Taken(turns[..n]))| + |turns[n].read.value| > maximum then events == s.Events() && verdict == Err(ResponseTooLarge)
    else verdict.Err? && verdict.error.StreamFailed? && Pushed(c, s, turns[n].read.value) == Stopped(verdict.error.error, events)
  }

  /** Hands every read to a fresh framer until something stops it, then ends the stream. Where nothing
      but the framer can, it is the run over those reads. */
  method ReadBody(config: Config, maximum: u64, turns: seq<Turn>)
    returns (events: seq<seq<byte>>, verdict: Result<(), BodyError>, ghost n: nat)
    ensures WentWell(config, maximum, turns, n) && EndsAfter(config, maximum, turns, n, events, verdict)
    ensures (forall i :: 0 <= i < |turns| ==> Smooth(turns[i])) && |Join(Taken(turns))| <= maximum ==>
              && events == Outcomes(config, Taken(turns)).events
              && verdict == BodyVerdict(Outcomes(config, Taken(turns)).verdict)
  {
    hide Drain, Process, Join, PushedAll, Pushed;
    var parser := new SseParser(config);
    events := [];
    var total := 0;
    assert turns[..0] == [] && Taken([]) == [];
    NothingTaken(config);
    for i := 0 to |turns|
      invariant DataIsText(parser.data) && parser.config == config
      invariant WentWell(config, maximum, turns, i) && total == |Join(Taken(turns[..i]))|
      invariant PushedAll(config, Taken(turns[..i])) == Going(parser.pending, parser.data, events)
    {
      n := i;
      if turns[i].cancelledBefore { return events, Err(Cancelled), n; }
      if turns[i].cancelledAfter { return events, Err(Cancelled), n; }
      if turns[i].read.None? { return events, Err(Transport), n; }
      var received := turns[i].read.value;
      if received == [] {
        var end := parser.Finish();
        return events, BodyVerdict(end), n;
      }
      TakenMore(config, turns, i);
      total := total + |received|;
      if total > maximum {
        TotalGrows(config, turns, i + 1);
        return events, Err(ResponseTooLarge), n;
      }
      var result;
      result, events := parser.Push(received, events);
      if result.Err? {
        StoppedThere(config, turns, i);
        return events, Err(StreamFailed(result.error)), n;
      }
    }
    assert turns[..|turns|] == turns;
    n := |turns|;
    var end := parser.Finish();
    verdict := BodyVerdict(end);
  }

  lemma NothingTaken(c: Config)
    ensures Join([]) == [] && PushedAll(c, []) == START
  {
  }

  lemma TakenMore(c: Config, turns: seq<Turn>, i: nat)
    requires i < |turns| && forall k :: 0 <= k <= i ==> Smooth(turns[k])
    ensures PushedAll(c, Taken(turns[..i + 1])) == Pushed(c, PushedAll(c, Taken(turns[..i])), turns[i].read.value)
    ensures |Join(Taken(turns[..i + 1]))| == |Join(Taken(turns[..i]))| + |turns[i].read.value|
  {
    hide Pushed;
    var t := Taken(turns[..i + 1]);
    assert t[..|t| - 1] == Taken(turns[..i]) && t[|t| - 1] == turns[i].read.value;
  }

  lemma {:induction false} TotalGrows(c: Config, turns: seq<Turn>, n: nat)
    requires n <= |turns| && forall k :: 0 <= k < n ==> Smooth(turns[k])
    ensures (forall k :: 0 <= k < |turns| ==> Smooth(turns[k])) ==> |Join(Taken(turns[..n]))| <= |Join(Taken(turns))|
    decreases |turns|
  {
    hide Pushed, PushedAll, Join;
    if n == |turns| {
      assert turns[..n] == turns;
    } else if forall k :: 0 <= k < |turns| ==> Smooth(turns[k]) {
      var front := turns[..|turns| - 1];
      TotalGrows(c, front, n);
      assert front[..n] == turns[..n];
      TakenMore(c, turns, |turns| - 1);
      assert turns[..|turns|] == turns;
    }
  }

  lemma StoppedThere(c: Config, turns: seq<Turn>, i: nat)
    requires i < |turns| && (forall k :: 0 <= k <= i ==> Smooth(turns[k])) && PushedAll(c, Taken(turns[..i + 1])).Stopped?
    ensures (forall k :: 0 <= k < |turns| ==> Smooth(turns[k])) ==> PushedAll(c, Taken(turns)) == PushedAll(c, Taken(turns[..i + 1]))
  {
    hide Pushed, PushedAll;
    if forall k :: 0 <= k < |turns| ==> Smooth(turns[k]) {
      assert Taken(turns)[..i + 1] == Taken(turns[..i + 1]);
      StaysStopped(c, Taken(turns), i + 1);
    }
  }

  lemma {:induction false} StaysStopped(c: Config, pieces: seq<seq<byte>>, n: nat)
    requires n <= |pieces| && PushedAll(c, pieces[..n]).Stopped?
    ensures PushedAll(c, pieces) == PushedAll(c, pieces[..n])
    decreases |pieces|
  {
    if n == |pieces| {
      assert pieces[..n] == pieces;
    } else {
      var front := pieces[..|pieces| - 1];
      assert front[..n] == pieces[..n];
      StaysStopped(c, front, n);
    }
  }
}
