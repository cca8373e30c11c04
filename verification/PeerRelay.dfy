/** The observing peer: it pages through the log of its execution while the serving host goes on,
    archives included, and relays what it reads. */
module PeerRelay {
  import opened Prelude
  import opened PeerTypes
  import opened PeerTables
  import opened PeerEvolution
  import opened PeerTransaction
  import opened PeerCommit
  import opened PeerStore
  import opened PeerServing

  // ---- What a closed page promises ----

  /** The slot a terminal observation needs is never used up: whatever phase still takes one can
      take it, at any time and with any outcome. */
  lemma LastSlotIsKept(t: Tables, e: ExecutionId, o: Observation)
    requires Consistent(t) && e in t.executions && PhaseAccepts(t.executions[e].phase, true)
    requires o.execution == e && o.sequence == t.executions[e].lastSequence + 1 && o.observedAt != 0
    requires o.event.Final? && o.event.usage.None?
    ensures MayAppend(t.executions[e], o) && HistoryTakes(t.executions[e], o)
  {
    hide Consistent;
    HotExecutionFinds(t, e);
    SoundHistory(t, e);
    MayAppendIsRoom(t.executions[e], o);
  }

  /** The tables after a terminal observation of an uncertain execution. */
  function AfterConclusion(t: Tables, e: ExecutionId, o: Observation): Tables
    requires e in t.executions && RecordValid(t.executions[e]) && MayAppend(t.executions[e], o)
  {
    t.(executions := t.executions[e := Appended(t.executions[e], o)],
       observations := t.observations[Key(o.sequence, e) := o],
       terminal := Moved(t.terminal, KeyIn(Settled, t.executions[e]), Some(Key(o.observedAt, e)), e))
  }

  /** The store would take a document for this execution now. */
  ghost predicate Extensible(t: Tables, e: ExecutionId) {
    exists owner, o, ready :: Continues(t, owner, e, o, ready) && !NoCounterLeft(t, e, o.event.Final?)
  }

  /** A retained uncertain execution whose record can be revised once more. */
  predicate MayConclude(t: Tables, e: ExecutionId) {
    e in t.executions && t.executions[e].phase.Uncertain? && t.executions[e].revision < U64_MAX
  }

  lemma UncertainMayConclude(t: Tables, e: ExecutionId)
    requires Consistent(t) && MayConclude(t, e)
    ensures Extensible(t, e)
    ensures exists u :: Consistent(u) && Evolves(t, u) && e in Known(u) && HistoryOf(u, e) != HistoryOf(t, e)
  {
    hide Consistent, Evolves, RecordSound;
    HotExecutionFinds(t, e);
    SoundHistory(t, e);
    LogIsShort(t, e);
    var o := Observation(e, t.executions[e].lastSequence + 1, Final(0, None), 1);
    LastSlotIsKept(t, e, o);
    assert Continues(t, t.executions[e].caller, e, o, true) && !NoCounterLeft(t, e, true);
    var u := AfterConclusion(t, e, o);
    CommitAppend(t, u, e, o);
    assert HistoryOf(u, e) == HistoryOf(t, e) + [o];
  }

  /** The history stays as it is in every state that evolves from this one, so after any run. */
  ghost predicate Sealed(t: Tables, e: ExecutionId)
    requires e in Known(t)
  {
    forall u :: Consistent(u) && Evolves(t, u) ==> e in Known(u) && HistoryOf(u, e) == HistoryOf(t, e)
  }

  /** A closed page keeps its promise exactly when the execution is not hot, uncertain and open to
      one more revision: terminal, archived and fully revised histories are sealed, any other
      retained uncertain one still takes a document. */
  lemma ClosedMeansSealed(t: Tables, e: ExecutionId, observations: seq<Observation>, after: u64)
    requires Consistent(t) && e in Known(t)
    requires PageAnswer(SnapshotOf(t, e), observations, e, after).closed
    ensures Sealed(t, e) <==> !MayConclude(t, e)
    ensures Extensible(t, e) <==> MayConclude(t, e)
  {
    hide Consistent, Evolves, HistoryOf;
    if MayConclude(t, e) {
      UncertainMayConclude(t, e);
    } else {
      forall u | Consistent(u) && Evolves(t, u)
        ensures e in Known(u) && HistoryOf(u, e) == HistoryOf(t, e)
      {
        SealedHistory(t, u, e);
      }
    }
  }

  predicate NothingMoreToWrite(t: Tables, e: ExecutionId) {
    e in t.executions ==> t.executions[e].phase.Terminal? || t.executions[e].revision == U64_MAX
  }

  lemma SealedHistory(t: Tables, u: Tables, e: ExecutionId)
    requires Consistent(t) && Consistent(u) && Evolves(t, u)
    requires e in Known(t) && NothingMoreToWrite(t, e)
    ensures e in Known(u) && HistoryOf(u, e) == HistoryOf(t, e)
  {
    hide RequestsAgree, DocumentsSound, IndexesAgree, RowsAgree, ArtifactsAgree, CountersAgree;
    assert ExecutionAdvances(t, u, e);
  }

  lemma LogIsShort(t: Tables, e: ExecutionId)
    requires Consistent(t) && e in t.executions
    ensures t.executions[e].lastSequence <= 1_000_000
  {
    hide Consistent;
    HotExecutionFinds(t, e);
  }

  /** Reads a page and then offers the store a conclusion: after a closed page it is taken exactly
      when the page broke its promise. */
  method ConcludeAfterPage(store: PeerStore, caller: CallerId, e: ExecutionId, after: u64, limit: nat, outcome: nat, at: u64)
    returns (closed: bool, appended: bool)
    requires Consistent(store.tables) && e in Known(store.tables) && AcceptanceOf(store.tables, e).caller == caller
    requires after <= |HistoryOf(store.tables, e)| && at != 0
    modifies store
    ensures Consistent(store.tables) && Evolves(old(store.tables), store.tables) && e in Known(store.tables)
    ensures closed ==> (appended <==> MayConclude(old(store.tables), e))
    ensures HistoryOf(store.tables, e) ==
            old(HistoryOf(store.tables, e))
            + if appended then [Observation(e, |old(HistoryOf(store.tables, e))| + 1, Final(outcome, None), at)] else []
  {
    hide Consistent, Evolves, RecordSound, RecordValid, MayAppend;
    Unchanged(store.tables);
    var page := store.Observations(caller, e, after, limit);
    if page.Err? { assert false; }
    closed, appended := PageAnswer(page.value.0, page.value.1, e, after).closed, false;
    if page.value.0.Archived? { return; }
    ghost var before := store.tables.executions[e];
    SnapshotHead(store.tables, e);
    var head := page.value.0.LastSequence();
    if closed { ClosedMeansSealed(store.tables, e, page.value.1, after); }
    LogIsShort(store.tables, e);
    var o := Observation(e, head + 1, Final(outcome, None), at);
    if PhaseAccepts(before.phase, true) { LastSlotIsKept(store.tables, e, o); }
    var written := store.AppendObservation(caller, e, o, true);
    appended := written.Ok? && written.value.AppendedNow?;
  }

  /** Reads a page and lets the store go on: after a closed page that kept its promise no run
      changes the history. */
  method RunAfterPage(store: PeerStore, caller: CallerId, e: ExecutionId, after: u64, limit: nat, ops: seq<Op>) returns (closed: bool)
    requires Consistent(store.tables) && e in Known(store.tables) && AcceptanceOf(store.tables, e).caller == caller
    requires after <= |HistoryOf(store.tables, e)|
    modifies store
    ensures Consistent(store.tables) && Evolves(old(store.tables), store.tables) && e in Known(store.tables)
    ensures closed && !MayConclude(old(store.tables), e) ==> HistoryOf(store.tables, e) == old(HistoryOf(store.tables, e))
  {
    hide Consistent, Evolves, HistoryOf, MayConclude;
    var page := store.Observations(caller, e, after, limit);
    if page.Err? { assert false; }
    closed := PageAnswer(page.value.0, page.value.1, e, after).closed;
    if closed { ClosedMeansSealed(store.tables, e, page.value.1, after); }
    ghost var t := store.tables;
    store.Run(ops);
    RelayedStays(t, store.tables, e, o => true, []);
  }

  // ---- The relay loop ----

  datatype Fetch = Arrives | NotFoundThere | LostOnTheWay

  /** One turn: what others do first, and what the observer meets. The observation at place `i` of
      the page is imported and accepted by the reporter unless `i` is listed as failing. */
  datatype Tick = Tick(
    before: seq<Op>,
    stopped: bool,
    clock: Option<u64>,
    heartbeat: bool,
    fetch: Fetch,
    limit: nat,
    heartbeatAfter: bool,
    importFails: set<nat>,
    reportFails: set<nat>)

  datatype End =
    | Observing
    | Completed
    | UncertaintyReported(number: nat)
    | SummaryReported(number: nat, summary: Summary)
    | ReporterFailed
    | NotContiguous

  /** What has been relayed is exactly the start of the host's history, in order, without gap or
      repeat, and all of this invocation; a synthesized outcome takes the next number; the loop ends
      well without one only when the whole history has been relayed and ends in its terminal
      observation; and the contiguity error means that the host logged another invocation's event. */
  ghost predicate RelayedWell(t: Tables, e: ExecutionId, mine: Observation -> bool, relayed: seq<Observation>, end: End) {
    && e in Known(t) && relayed <= HistoryOf(t, e) && AllMine(mine, relayed)
    && (match end
        case Completed => relayed == HistoryOf(t, e) && Ended(relayed)
        case UncertaintyReported(number) => number == |relayed| + 1
        case SummaryReported(number, summary) => number == |relayed| + 1 && e in t.tombstones && summary == SummaryOf(t.tombstones[e])
        case NotContiguous => |relayed| < |HistoryOf(t, e)| && !mine(HistoryOf(t, e)[|relayed|])
        case Observing => true
        case ReporterFailed => true)
  }

  predicate AllMine(mine: Observation -> bool, observations: seq<Observation>) {
    forall i :: 0 <= i < |observations| ==> mine(observations[i])
  }

  /** What ends a turn before the host is asked or as soon as it answers that it knows nothing: with an
      uncertain outcome, or with the reporter's failure. */
  function Interrupted(tick: Tick, deadline: u64): Option<bool> {
    if tick.stopped || tick.clock.None? || tick.clock.value > deadline then Some(true)
    else if !tick.heartbeat then Some(false)
    else if tick.fetch.NotFoundThere? then Some(true)
    else None
  }

  /** Nothing on the observer's side goes wrong. */
  predicate Undisturbed(tick: Tick, deadline: u64) {
    && Interrupted(tick, deadline).None? && tick.fetch.Arrives? && tick.limit > 0 && tick.heartbeatAfter
    && tick.importFails == {} && tick.reportFails == {}
  }

  /** Then the host alone decides: an archived execution ends in its summary, a caught-up ended one well, a
      caught-up settled one that never ended as uncertain, and any other goes on. */
  ghost predicate FollowsPage(t: Tables, e: ExecutionId, relayed: seq<Observation>, now: seq<Observation>, end: End)
    requires e in Known(t)
  {
    if e !in t.executions then now == relayed && end.SummaryReported?
    else if now == HistoryOf(t, e) && Ended(now) then end == Completed
    else if now == HistoryOf(t, e) && !t.executions[e].phase.IsActive() then end == UncertaintyReported(|now| + 1)
    else end == Observing
  }

  lemma RelayedStays(t: Tables, u: Tables, e: ExecutionId, mine: Observation -> bool, relayed: seq<Observation>)
    requires Consistent(u) && Evolves(t, u) && RelayedWell(t, e, mine, relayed, Observing)
    ensures RelayedWell(u, e, mine, relayed, Observing) && AcceptanceOf(u, e) == AcceptanceOf(t, e)
  {
    hide RequestsAgree, DocumentsSound, IndexesAgree, RowsAgree, ArtifactsAgree, CountersAgree;
    EvolutionKeepsIdentity(t, u, e);
  }

  /** Relays one page, observation by observation, up to a failure or an event of another invocation. */
  method RelayPage(mine: Observation -> bool, observations: seq<Observation>, relayed: seq<Observation>, tick: Tick)
    returns (now: seq<Observation>, end: End)
    requires forall i :: 0 <= i < |observations| ==> observations[i].sequence == |relayed| + i + 1
    requires AllMine(mine, relayed)
    ensures relayed <= now <= relayed + observations && AllMine(mine, now)
    ensures end.Observing? ==> now == relayed + observations
    ensures end.NotContiguous? ==> |now| < |relayed + observations| && !mine((relayed + observations)[|now|])
    ensures end.Observing? || end.ReporterFailed? || end.NotContiguous? || end == UncertaintyReported(|now| + 1)
    ensures tick.importFails == {} && tick.reportFails == {} && AllMine(mine, observations) ==> end.Observing?
  {
    now, end := relayed, Observing;
    var after := |relayed|;
    for i := 0 to |observations|
      invariant after == |now| && now == relayed + observations[..i] && AllMine(mine, now)
    {
      if !mine(observations[i]) { return now, NotContiguous; }
      if observations[i].sequence != after + 1 { assert false; }
      if i in tick.importFails { return now, UncertaintyReported(after + 1); }
      after := observations[i].sequence;
      now := now + [observations[i]];
      if i in tick.reportFails { return now, ReporterFailed; }
    }
  }

  /** A hot page that is terminal and caught up carries the rest of an ended history. */
  lemma TerminalPageCompletes(t: Tables, e: ExecutionId, relayed: seq<Observation>, after: u64, observations: seq<Observation>)
    requires Consistent(t) && e in t.executions && relayed <= HistoryOf(t, e) && after == |relayed|
    requires observations <= HistoryOf(t, e)[|relayed|..]
    requires PageAnswer(SnapshotOf(t, e), observations, e, after).terminal
    ensures relayed + observations == HistoryOf(t, e) && Ended(HistoryOf(t, e))
  {
    hide Consistent, RecordValid;
    SnapshotHead(t, e);
    SoundHistory(t, e);
    HotExecutionFinds(t, e);
    var log := t.executions[e].History();
    if observations != [] {
      assert observations[|observations| - 1] == log[|relayed| + |observations| - 1];
    }
  }

  /** One turn of the observation loop. */
  method RelayTurn(
    store: PeerStore, caller: CallerId, execution: ExecutionId, mine: Observation -> bool, deadline: u64,
    relayed: seq<Observation>, tick: Tick)
    returns (now: seq<Observation>, end: End)
    requires Consistent(store.tables) && RelayedWell(store.tables, execution, mine, relayed, Observing)
    requires AcceptanceOf(store.tables, execution).caller == caller
    ensures RelayedWell(store.tables, execution, mine, now, end)
    ensures Interrupted(tick, deadline).Some? ==>
              now == relayed && end == if Interrupted(tick, deadline).value then UncertaintyReported(|relayed| + 1) else ReporterFailed
    ensures Interrupted(tick, deadline).None? && (tick.fetch.LostOnTheWay? || tick.limit == 0) ==>
              now == relayed && end == if tick.heartbeatAfter then Observing else ReporterFailed
    ensures Undisturbed(tick, deadline) && AllMine(mine, HistoryOf(store.tables, execution)) ==>
              FollowsPage(store.tables, execution, relayed, now, end)
    ensures tick.fetch.Arrives? && tick.limit > 0 && end.Observing? && execution in store.tables.executions ==>
              now == HistoryOf(store.tables, execution) || |now| >= |relayed| + (if tick.limit < 128 then tick.limit else 128)
  {
    hide Consistent, Evolves, SummaryOf, Ended, AcceptanceOf, AllMine;
    now := relayed;
    var after := |relayed|;
    if tick.stopped { return now, UncertaintyReported(after + 1); }
    if tick.clock.None? { return now, UncertaintyReported(after + 1); }
    if tick.clock.value > deadline { return now, UncertaintyReported(after + 1); }
    if !tick.heartbeat { return now, ReporterFailed; }
    if tick.fetch.NotFoundThere? { return now, UncertaintyReported(after + 1); }
    if tick.fetch.LostOnTheWay? || tick.limit == 0 {
      return now, if tick.heartbeatAfter then Observing else ReporterFailed;
    }
    var limit := if tick.limit < 128 then tick.limit else 128;
    CursorFits(store.tables, execution, mine, relayed);
    var fetched := store.Observations(caller, execution, after, limit);
    if fetched.Err? { assert false; }
    var page := PageAnswer(fetched.value.0, fetched.value.1, execution, after);
    PageIsValid(store.tables, execution, after, limit, fetched.value.1);
    if !PageValid(page, limit) { assert false; }
    if !tick.heartbeatAfter { return now, ReporterFailed; }
    now, end := RelayAnswer(store.tables, execution, mine, relayed, page, tick);
  }

  /** What a page says is what the history says. */
  lemma PageDecides(t: Tables, e: ExecutionId, relayed: seq<Observation>, observations: seq<Observation>)
    requires Consistent(t) && e in Known(t) && relayed <= HistoryOf(t, e) && |relayed| <= U64_MAX
    requires observations <= HistoryOf(t, e)[|relayed|..] && (e !in t.executions ==> observations == [])
    ensures var page := PageAnswer(SnapshotOf(t, e), observations, e, |relayed|);
            && (page.history.ArchivedHistory? <==> e !in t.executions)
            && (e in t.executions ==>
                  && (page.terminal <==> relayed + observations == HistoryOf(t, e) && Ended(HistoryOf(t, e)))
                  && (page.closed <==> relayed + observations == HistoryOf(t, e) && !t.executions[e].phase.IsActive()))
    ensures e in t.executions && Ended(HistoryOf(t, e)) ==> !t.executions[e].phase.IsActive()
  {
    hide Consistent;
    if e in t.executions {
      PageTells(t, e, |relayed|, observations);
      SoundHistory(t, e);
      var log := HistoryOf(t, e);
      assert |relayed| + |observations| == |log| ==> relayed + observations == log;
    }
  }

  /** What one valid page of the host leads to. */
  method RelayAnswer(
    ghost t: Tables, execution: ExecutionId, mine: Observation -> bool, relayed: seq<Observation>, page: PageReply, tick: Tick)
    returns (now: seq<Observation>, end: End)
    requires Consistent(t) && RelayedWell(t, execution, mine, relayed, Observing) && |relayed| <= U64_MAX
    requires page == PageAnswer(SnapshotOf(t, execution), page.observations, execution, |relayed|)
    requires execution !in t.executions ==> page.observations == []
    requires page.observations <= HistoryOf(t, execution)[|relayed|..] && Contiguous(page.observations, execution, |relayed|)
    ensures RelayedWell(t, execution, mine, now, end)
    ensures end.Observing? ==> now == relayed + page.observations
    ensures tick.importFails == {} && tick.reportFails == {} && AllMine(mine, HistoryOf(t, execution)) ==>
              FollowsPage(t, execution, relayed, now, end)
  {
    hide Consistent, SummaryOf, Ended, HistoryOf, PublicStatus;
    PageDecides(t, execution, relayed, page.observations);
    now, end := RelayPage(mine, page.observations, relayed, tick);
    ForeignIsLogged(t, execution, relayed, page.observations, now);
    if !end.Observing? { return; }
    if page.history.ArchivedHistory? { return now, SummaryReported(|now| + 1, page.history.summary); }
    if page.closed {
      if !page.terminal { return now, UncertaintyReported(|now| + 1); }
      TerminalPageCompletes(t, execution, relayed, |relayed|, page.observations);
      return now, Completed;
    }
  }

  lemma ForeignIsLogged(t: Tables, e: ExecutionId, relayed: seq<Observation>, observations: seq<Observation>, now: seq<Observation>)
    requires e in Known(t) && relayed <= HistoryOf(t, e) && observations <= HistoryOf(t, e)[|relayed|..]
    requires relayed <= now <= relayed + observations
    ensures now <= HistoryOf(t, e)
    ensures |now| < |relayed + observations| ==> (relayed + observations)[|now|] == HistoryOf(t, e)[|now|]
  {
    hide HistoryOf;
    var log := HistoryOf(t, e);
    assert relayed + observations <= log;
  }

  lemma CursorFits(t: Tables, e: ExecutionId, mine: Observation -> bool, relayed: seq<Observation>)
    requires Consistent(t) && RelayedWell(t, e, mine, relayed, Observing)
    ensures |relayed| <= |HistoryOf(t, e)| <= U64_MAX
  {
    hide Consistent;
    SnapshotHead(t, e);
  }

  /** The observation loop over any behaviour of the host, the network and the reporter. */
  method Relay(
    store: PeerStore, caller: CallerId, execution: ExecutionId, mine: Observation -> bool, deadline: u64, ticks: seq<Tick>)
    returns (relayed: seq<Observation>, end: End)
    requires Consistent(store.tables) && execution in Known(store.tables)
    requires AcceptanceOf(store.tables, execution).caller == caller
    modifies store
    ensures Consistent(store.tables) && Evolves(old(store.tables), store.tables)
    ensures RelayedWell(store.tables, execution, mine, relayed, end)
  {
    hide Consistent, Evolves, AcceptanceOf;
    Unchanged(store.tables);
    relayed, end := [], Observing;
    for i := 0 to |ticks|
      invariant Consistent(store.tables) && Evolves(old(store.tables), store.tables)
      invariant RelayedWell(store.tables, execution, mine, relayed, end) && end == Observing
      invariant AcceptanceOf(store.tables, execution).caller == caller
    {
      ghost var t := store.tables;
      store.Run(ticks[i].before);
      EvolvesThrough(old(store.tables), t, store.tables);
      RelayedStays(t, store.tables, execution, mine, relayed);
      relayed, end := RelayTurn(store, caller, execution, mine, deadline, relayed, ticks[i]);
      if !end.Observing? { return; }
    }
  }
}
