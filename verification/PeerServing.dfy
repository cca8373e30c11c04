/** The serving host over the store: what it answers to a submission, a lookup and a page request,
    and the checks the calling peer makes of those answers. */
module PeerServing {
  import opened Prelude
  import opened PeerTypes
  import opened PeerTables
  import opened PeerEvolution
  import opened PeerTransaction
  import opened PeerAdmission
  import opened PeerStore
  import PeerCommit

  // ---- Answers ----

  datatype Status = StatusAccepted | StatusRunning | StatusTerminal | StatusUnknown

  datatype Summary = Summary(
    outputs: seq<Observation>, status: Status, lastSequence: u64, archivedAt: u64, final: Option<Observation>, reasonBytes: Option<nat>)

  datatype History = HotHistory | ArchivedHistory(summary: Summary)

  datatype Reply =
    | AcceptedReply(requestId: RequestId, execution: ExecutionId, digest: DigestText, acceptedAt: u64, leaseExpiresAt: u64, replayed: bool)
    | ArchivedReply(requestId: RequestId, execution: ExecutionId, digest: DigestText, acceptedAt: u64, summary: Summary)
    | RejectedReply(requestId: RequestId, retryable: bool, existing: Option<ExecutionId>)

  datatype LookupReply =
    | NotAccepted(requestId: RequestId)
    | KnownReply(requestId: RequestId, execution: ExecutionId, digest: DigestText, acceptedAt: u64, status: Status, lastSequence: u64, history: History)

  datatype PageReply = PageReply(
    execution: ExecutionId, after: u64, next: u64, observations: seq<Observation>, status: Status,
    terminal: bool, closed: bool, history: History)

  function PublicStatus(s: Snapshot): Status {
    match s
    case Hot(record) =>
      if record.phase.Terminal? then StatusTerminal
      else if record.phase.Uncertain? then StatusUnknown
      else if record.phase.EvidenceOf().Some? then StatusRunning
      else StatusAccepted
    case Archived(tombstone) => if tombstone.disposition.Finished? then StatusTerminal else StatusUnknown
  }

  function SummaryOf(d: Tombstone): Summary {
    Summary(
      d.outputs,
      if d.disposition.Finished? then StatusTerminal else StatusUnknown,
      d.lastSequence, d.archivedAt,
      if d.disposition.Finished? then Some(d.disposition.observation) else None,
      if d.disposition.Finished? then None else Some(d.disposition.reasonBytes))
  }

  function HistoryAnswer(s: Snapshot): History {
    if s.Hot? then HotHistory else ArchivedHistory(SummaryOf(s.tombstone))
  }

  /** The lease of a claimed execution, the deadline of any other. */
  function LeaseOf(record: Record): u64 {
    if record.phase.ClaimOf().Some? then record.phase.ClaimOf().value.leaseExpiresAt else record.request.deadline
  }

  function AcceptanceAnswer(s: Snapshot, replayed: bool): Reply {
    match s
    case Hot(record) =>
      AcceptedReply(
        record.request.requestId, record.execution, record.request.digest, record.acceptedAt,
        LeaseOf(record), replayed)
    case Archived(tombstone) =>
      ArchivedReply(tombstone.requestId, tombstone.execution, tombstone.requestDigest, tombstone.acceptedAt, SummaryOf(tombstone))
  }

  function LookupAnswer(s: Snapshot): LookupReply {
    KnownReply(s.RequestIdOf(), s.ExecutionOf(), s.DigestOf(), s.AcceptedAt(), PublicStatus(s), s.LastSequence(), HistoryAnswer(s))
  }

  function PageAnswer(s: Snapshot, observations: seq<Observation>, execution: ExecutionId, after: u64): PageReply {
    var next := if observations == [] then after else observations[|observations| - 1].sequence;
    var caughtUp := s.Archived? || next >= s.LastSequence();
    var status := PublicStatus(s);
    PageReply(
      execution, after, next, observations, status,
      caughtUp && status == StatusTerminal,
      caughtUp && (status == StatusTerminal || status == StatusUnknown),
      HistoryAnswer(s))
  }

  // ---- The caller's checks ----

  predicate SummaryValid(s: Summary, execution: ExecutionId) {
    && s.archivedAt != 0
    && (s.reasonBytes.Some? ==> 0 < s.reasonBytes.value <= 2_048)
    && |s.outputs| <= 256
    && (forall i :: 0 <= i < |s.outputs| ==>
          && ObservationValid(s.outputs[i]) && s.outputs[i].execution == execution
          && s.outputs[i].sequence <= s.lastSequence && s.outputs[i].event.Output?
          && (i > 0 ==> s.outputs[i - 1].sequence < s.outputs[i].sequence))
    && (match s.status
        case StatusTerminal =>
          && s.final.Some? && s.reasonBytes.None?
          && s.final.value.execution == execution && s.final.value.sequence == s.lastSequence
          && s.final.value.event.Final? && ObservationValid(s.final.value)
        case StatusUnknown => s.final.None? && s.reasonBytes.Some?
        case _ => false)
  }

  predicate ReplyValidFor(reply: Reply, request: Request) {
    match reply
    case AcceptedReply(id, _, digest, acceptedAt, lease, _) =>
      id == request.requestId && digest == request.digest && acceptedAt > 0 && acceptedAt <= lease
    case ArchivedReply(id, execution, digest, acceptedAt, summary) =>
      id == request.requestId && digest == request.digest && acceptedAt > 0 && SummaryValid(summary, execution)
    case RejectedReply(id, _, _) => id == request.requestId
  }

  predicate LookupValidFor(reply: LookupReply, requestId: RequestId) {
    match reply
    case NotAccepted(id) => id == requestId
    case KnownReply(id, execution, _, acceptedAt, status, last, history) =>
      && id == requestId && acceptedAt > 0
      && (history.ArchivedHistory? ==>
            SummaryValid(history.summary, execution) && history.summary.status == status && history.summary.lastSequence == last)
  }

  const MAX_OBSERVATIONS_PER_PAGE: nat := 256

  predicate Contiguous(observations: seq<Observation>, execution: ExecutionId, after: u64) {
    forall i :: 0 <= i < |observations| ==>
      && ObservationValid(observations[i]) && observations[i].execution == execution
      && observations[i].sequence == after + i + 1
  }

  predicate PageValid(p: PageReply, limit: nat) {
    && |p.observations| <= limit && |p.observations| <= MAX_OBSERVATIONS_PER_PAGE
    && (match p.history
        case HotHistory => p.closed && !p.terminal ==> p.status == StatusUnknown
        case ArchivedHistory(summary) =>
          && SummaryValid(summary, p.execution)
          && p.observations == [] && p.status == summary.status && p.closed
          && p.after <= summary.lastSequence
          && (p.terminal <==> summary.status == StatusTerminal))
    && (p.terminal ==> p.closed && p.status == StatusTerminal)
    && Contiguous(p.observations, p.execution, p.after)
    && p.next == if p.observations == [] then p.after else p.observations[|p.observations| - 1].sequence
  }

  // ---- The answers of a consistent store pass those checks ----

  lemma SummaryIsValid(t: Tables, e: ExecutionId)
    requires Consistent(t) && e in t.tombstones
    ensures SummaryValid(SummaryOf(t.tombstones[e]), e)
  {
    hide RequestsAgree, IndexesAgree, RowsAgree, ArtifactsAgree, CountersAgree, RecordSound;
    assert TombstoneSound(t.tombstones[e]);
  }

  lemma LookupIsValid(t: Tables, e: ExecutionId)
    requires Consistent(t) && e in Known(t)
    ensures LookupValidFor(LookupAnswer(SnapshotOf(t, e)), AcceptanceOf(t, e).requestId)
    ensures LookupAnswer(SnapshotOf(t, e)).execution == e
    ensures LookupAnswer(SnapshotOf(t, e)).digest == AcceptanceOf(t, e).digest
    ensures LookupAnswer(SnapshotOf(t, e)).acceptedAt == AcceptanceOf(t, e).acceptedAt
    ensures LookupAnswer(SnapshotOf(t, e)).lastSequence == |HistoryOf(t, e)|
    ensures LookupAnswer(SnapshotOf(t, e)).status == PublicStatus(SnapshotOf(t, e))
    ensures LookupAnswer(SnapshotOf(t, e)).history.HotHistory? <==> e in t.executions
  {
    hide Consistent, SummaryValid, SummaryOf;
    HotExecutionFinds(t, e);
    SnapshotHead(t, e);
    if e !in t.executions {
      SummaryIsValid(t, e);
      assert SummaryOf(t.tombstones[e]).status == PublicStatus(SnapshotOf(t, e)) by { SummaryTells(t.tombstones[e]); }
      assert SummaryOf(t.tombstones[e]).lastSequence == t.tombstones[e].lastSequence by { SummaryTells(t.tombstones[e]); }
      ArchivedIdentity(t, e);
    }
  }

  lemma SummaryTells(d: Tombstone)
    ensures SummaryOf(d).status == PublicStatus(Archived(d)) && SummaryOf(d).lastSequence == d.lastSequence
  {
  }

  lemma ArchivedIdentity(t: Tables, e: ExecutionId)
    requires Consistent(t) && e in t.tombstones
    ensures t.tombstones[e].execution == e && t.tombstones[e].acceptedAt > 0 && e !in t.executions
  {
    hide RequestsAgree, IndexesAgree, RowsAgree, ArtifactsAgree, CountersAgree, RecordSound;
    assert TombstoneSound(t.tombstones[e]);
  }

  /** An acceptance passes the caller's check exactly when it is archived or its lease, or deadline
      while unclaimed, is not before the acceptance. */
  lemma AcceptanceIsValid(t: Tables, e: ExecutionId, request: Request, replayed: bool)
    requires Consistent(t) && e in Known(t)
    requires AcceptanceOf(t, e).requestId == request.requestId && AcceptanceOf(t, e).digest == request.digest
    ensures ReplyValidFor(AcceptanceAnswer(SnapshotOf(t, e), replayed), request) <==>
              (e in t.executions ==>
                 t.executions[e].acceptedAt <= if t.executions[e].phase.ClaimOf().Some?
                                               then t.executions[e].phase.ClaimOf().value.leaseExpiresAt
                                               else t.executions[e].request.deadline)
    ensures var reply := AcceptanceAnswer(SnapshotOf(t, e), replayed);
            if e in t.executions then reply.AcceptedReply? && reply.execution == e && reply.replayed == replayed
            else reply.ArchivedReply? && reply.execution == e
  {
    hide Consistent, SummaryValid, SummaryOf;
    HotExecutionFinds(t, e);
    if e !in t.executions {
      SummaryIsValid(t, e);
      ArchivedIdentity(t, e);
    }
  }

  // ---- What the answers say about the history ----

  /** The public status tells how far the execution got. */
  lemma StatusTells(t: Tables, e: ExecutionId)
    requires Consistent(t) && e in Known(t)
    ensures var status := PublicStatus(SnapshotOf(t, e));
            && (status == StatusTerminal <==> Ended(HistoryOf(t, e)))
            && (status == StatusRunning <==>
                  e in t.executions && t.executions[e].phase.IsActive() && t.executions[e].phase.EvidenceOf().Some?)
            && (status == StatusAccepted <==>
                  e in t.executions && t.executions[e].phase.IsActive() && t.executions[e].phase.EvidenceOf().None?)
  {
    hide PrimaryAgrees, RequestsAgree, IndexesAgree, RowsAgree, ArtifactsAgree, CountersAgree, RecordValid, LogWellFormed, TombstoneValid;
    if e in t.executions {
      assert RecordSound(t.executions[e]);
    } else {
      assert TombstoneSound(t.tombstones[e]);
    }
  }

  /** An archived summary tells the length of the history, all its outputs and its end. */
  lemma SummaryTellsHistory(t: Tables, e: ExecutionId)
    requires Consistent(t) && e in t.tombstones
    ensures var s, log := SummaryOf(t.tombstones[e]), Log(t.tombstones[e].digest);
            && s.outputs == Outputs(log) && s.lastSequence == |log| && s.archivedAt == t.tombstones[e].archivedAt
            && s.final == (if Ended(log) then Some(log[|log| - 1]) else None)
            && (s.reasonBytes.Some? <==> !Ended(log))
            && s.status == (if Ended(log) then StatusTerminal else StatusUnknown)
  {
    hide PrimaryAgrees, RequestsAgree, IndexesAgree, RowsAgree, ArtifactsAgree, CountersAgree, LogWellFormed, TombstoneValid;
    assert TombstoneSound(t.tombstones[e]);
  }

  /** A page moves the cursor past what it carries. It is terminal exactly when that is the rest of an
      ended history, and closed exactly when it is the rest and the execution is settled. */
  lemma PageTells(t: Tables, e: ExecutionId, after: u64, observations: seq<Observation>)
    requires Consistent(t) && e in t.executions && after <= |t.executions[e].History()|
    requires observations <= t.executions[e].History()[after..]
    ensures var page, log := PageAnswer(SnapshotOf(t, e), observations, e, after), t.executions[e].History();
            && page.next == after + |observations| && page.observations == observations
            && (page.terminal <==> after + |observations| == |log| && Ended(log))
            && (page.closed <==> after + |observations| == |log| && !t.executions[e].phase.IsActive())
            && page.history == HotHistory
  {
    hide Consistent, RecordValid, Contiguous;
    SnapshotHead(t, e);
    StatusTells(t, e);
    PageIsContiguous(t, e, after, observations);
    LastOfPage(observations, e, after);
    HotIsActiveOrNot(t, e);
  }

  lemma LastOfPage(observations: seq<Observation>, e: ExecutionId, after: u64)
    requires Contiguous(observations, e, after)
    ensures observations != [] ==> observations[|observations| - 1].sequence == after + |observations|
  {
  }

  lemma HotIsActiveOrNot(t: Tables, e: ExecutionId)
    requires e in t.executions
    ensures PublicStatus(SnapshotOf(t, e)) in {StatusTerminal, StatusUnknown} <==> !t.executions[e].phase.IsActive()
  {
  }

  // ---- Submission ----

  /** Everything a submission meets that the store does not decide: authentication, drain state,
      rate, clock, catalog and authority checks, configured limits, the execution identity, and the
      transactions of others between the first lookup and the admission. */
  datatype Circumstances = Circumstances(
    authenticated: bool,
    mayInspect: bool,
    between: seq<Op>,
    ready: bool,
    withinRate: bool,
    now: u64,
    catalogCurrent: bool,
    advertised: bool,
    authorityMatches: bool,
    relationshipGeneration: u64,
    execution: ExecutionId,
    acceptedAt: u64,
    maximumGlobalActive: u32,
    maximumDispatchQueue: u32,
    maximumHotTerminal: u64,
    retentionMs: u64,
    archiveBatch: u32,
    resourcesReady: bool)

  datatype ServingError = Refused | Failed(error: Error)

  function AdmissionFor(request: Request, c: Circumstances): Admission {
    Admission(
      request.caller, c.relationshipGeneration, request, c.authorityMatches, c.execution, c.acceptedAt,
      c.maximumGlobalActive, c.maximumDispatchQueue, c.maximumHotTerminal,
      if c.acceptedAt > c.retentionMs then c.acceptedAt - c.retentionMs else 1,
      c.archiveBatch, c.resourcesReady)
  }

  /** The host archives nothing settled after the acceptance it makes room for, and nothing it has not
      kept for the whole retention time. */
  lemma BoundaryIsPast(request: Request, c: Circumstances)
    requires c.acceptedAt != 0
    ensures AdmissionFor(request, c).archiveBefore <= AdmissionFor(request, c).acceptedAt == c.acceptedAt
    ensures AdmissionFor(request, c).archiveBefore == 1 || AdmissionFor(request, c).archiveBefore + c.retentionMs == c.acceptedAt
    ensures c.acceptedAt > c.retentionMs ==> AdmissionFor(request, c).archiveBefore + c.retentionMs == c.acceptedAt
  {
  }

  /** The reply names an execution of exactly this request that the store knows. */
  ghost predicate Names(t: Tables, request: Request, execution: ExecutionId, acceptedAt: u64) {
    && RequestKey(request.caller, request.requestId) in t.byRequest
    && t.byRequest[RequestKey(request.caller, request.requestId)] == execution
    && execution in Known(t)
    && AcceptanceOf(t, execution).caller == request.caller
    && AcceptanceOf(t, execution).requestId == request.requestId
    && AcceptanceOf(t, execution).digest == request.digest
    && AcceptanceOf(t, execution).acceptedAt == acceptedAt
  }

  /** The store knows this request identity of this caller, as this execution, with another digest. */
  ghost predicate Conflicts(t: Tables, request: Request, execution: ExecutionId) {
    && RequestKey(request.caller, request.requestId) in t.byRequest
    && t.byRequest[RequestKey(request.caller, request.requestId)] == execution
    && execution in Known(t) && AcceptanceOf(t, execution).digest != request.digest
  }

  ghost predicate ReplyIsTrue(t: Tables, request: Request, reply: Reply) {
    match reply
    case AcceptedReply(id, execution, digest, acceptedAt, _, _) =>
      id == request.requestId && digest == request.digest && Names(t, request, execution, acceptedAt)
    case ArchivedReply(id, execution, digest, acceptedAt, _) =>
      id == request.requestId && digest == request.digest && Names(t, request, execution, acceptedAt)
    case RejectedReply(id, _, existing) =>
      id == request.requestId && (existing.Some? ==> Conflicts(t, request, existing.value))
  }

  /** What a request already known is answered, whatever the gates now are. */
  function KnownAnswer(s: Snapshot, request: Request): Reply {
    if s.DigestOf() == request.digest then AcceptanceAnswer(s, true)
    else RejectedReply(request.requestId, false, Some(s.ExecutionOf()))
  }

  lemma SnapshotTells(t: Tables, e: ExecutionId)
    requires Consistent(t) && e in Known(t)
    ensures SnapshotOf(t, e).ExecutionOf() == e
    ensures SnapshotOf(t, e).CallerOf() == AcceptanceOf(t, e).caller
    ensures SnapshotOf(t, e).RequestIdOf() == AcceptanceOf(t, e).requestId
    ensures SnapshotOf(t, e).DigestOf() == AcceptanceOf(t, e).digest
    ensures SnapshotOf(t, e).AcceptedAt() == AcceptanceOf(t, e).acceptedAt
  {
    hide Consistent;
    HotExecutionFinds(t, e);
    if e !in t.executions {
      ArchivedIdentity(t, e);
    }
  }

  lemma KnownAnswerIsTrue(t: Tables, request: Request)
    requires Consistent(t) && RequestKey(request.caller, request.requestId) in t.byRequest
    ensures var e := t.byRequest[RequestKey(request.caller, request.requestId)];
            e in Known(t) && ReplyIsTrue(t, request, KnownAnswer(SnapshotOf(t, e), request))
  {
    hide Consistent;
    var e := t.byRequest[RequestKey(request.caller, request.requestId)];
    IndexedRequest(t, RequestKey(request.caller, request.requestId));
    SnapshotTells(t, e);
  }

  lemma FreshAnswerIsTrue(t: Tables, a: Admission, sequence: u64)
    requires a.execution in t.executions && t.executions[a.execution] == NewRecord(a, sequence) && a.request.caller == a.caller
    requires RequestKeyOf(a) in t.byRequest && t.byRequest[RequestKeyOf(a)] == a.execution
    ensures ReplyIsTrue(t, a.request, AcceptanceAnswer(Hot(NewRecord(a, sequence)), false))
  {
  }

  /** New work that meets no refusal on the way, with nothing happening in between. */
  ghost predicate Accepts(t: Tables, request: Request, c: Circumstances) {
    && RequestKey(request.caller, request.requestId) !in t.byRequest
    && c.authenticated && RequestValid(request) && c.ready && c.withinRate && c.now <= request.deadline
    && c.catalogCurrent && c.advertised && c.between == []
    && AdmissionValid(AdmissionFor(request, c)) && Refusal(t, AdmissionFor(request, c)).None?
    && NewWork(t, AdmissionFor(request, c)) == Ok(true)
  }

  /** Answers a submission. */
  method Invoke(store: PeerStore, request: Request, c: Circumstances) returns (result: Result<Reply, ServingError>)
    requires Consistent(store.tables)
    modifies store
    ensures Consistent(store.tables) && Evolves(old(store.tables), store.tables)
    ensures result.Ok? ==> ReplyIsTrue(store.tables, request, result.value)
    ensures result != Err(Failed(INCONSISTENT))
    ensures Accepts(old(store.tables), request, c) ==>
              && result == Ok(AcceptanceAnswer(Hot(NewRecord(AdmissionFor(request, c), old(store.tables).global.nextSequence)), false))
              && result.value.AcceptedReply? && !result.value.replayed && result.value.execution == c.execution
              && c.execution in store.tables.executions
              && store.tables.executions[c.execution] == NewRecord(AdmissionFor(request, c), old(store.tables).global.nextSequence)
    ensures (RequestKey(request.caller, request.requestId) in old(store.tables).byRequest
             && c.authenticated && c.mayInspect && RequestValid(request)) ==>
              && store.tables == old(store.tables)
              && old(store.tables).byRequest[RequestKey(request.caller, request.requestId)] in Known(old(store.tables))
              && result == Ok(KnownAnswer(
                   SnapshotOf(old(store.tables), old(store.tables).byRequest[RequestKey(request.caller, request.requestId)]), request))
              && (result.value.AcceptedReply? ==> result.value.replayed)
              && (result.value.RejectedReply? ==> !result.value.retryable && result.value.existing.Some?)
  {
    hide Consistent, Evolves, ReplyIsTrue, AdmittedTo, WithinCapacity, MadeRoom, NewRecord, NewWork, Refusal;
    Unchanged(store.tables);
    if !c.authenticated { return Err(Refused); }
    if !RequestValid(request) { return Err(Refused); }
    var found := store.ExecutionByRequest(request.caller, request.requestId);
    if found.Err? { assert false; }
    if found.value.Some? {
      KnownAnswerIsTrue(store.tables, request);
      if !c.mayInspect { return Err(Refused); }
      return Ok(KnownAnswer(found.value.value, request));
    }
    RejectionIsTrue(store.tables, request, true);
    if !c.ready { return Ok(RejectedReply(request.requestId, true, None)); }
    if !c.withinRate { return Err(Refused); }
    RejectionIsTrue(store.tables, request, false);
    if c.now > request.deadline { return Ok(RejectedReply(request.requestId, false, None)); }
    if !c.catalogCurrent { return Ok(RejectedReply(request.requestId, true, None)); }
    if !c.advertised { return Err(Refused); }
    store.Run(c.between);
    ghost var v := store.tables;
    var admission := AdmissionFor(request, c);
    if c.acceptedAt != 0 {
      BoundaryIsPast(request, c);
      PastBoundaryIsSafe(v, admission);
    }
    var outcome := store.Admit(admission);
    PeerCommit.EvolvesThrough(old(store.tables), v, store.tables);
    if outcome.Err? { return Err(Failed(outcome.error)); }
    if outcome.value.Rejected? {
      RejectionIsTrue(store.tables, request, true);
      return Ok(RejectedReply(request.requestId, true, None));
    }
    if outcome.value.AcceptedNow? {
      FreshAnswerIsTrue(store.tables, admission, v.global.nextSequence);
      return Ok(AcceptanceAnswer(Hot(outcome.value.record), false));
    }
    KnownAnswerIsTrue(store.tables, request);
    return Ok(KnownAnswer(outcome.value.snapshot, request));
  }

  lemma RejectionIsTrue(t: Tables, request: Request, retryable: bool)
    ensures ReplyIsTrue(t, request, RejectedReply(request.requestId, retryable, None))
  {
  }

  // ---- Pages ----

  lemma PageIsValid(t: Tables, e: ExecutionId, after: u64, limit: nat, observations: seq<Observation>)
    requires Consistent(t) && e in Known(t) && after <= |HistoryOf(t, e)| && limit <= MAX_OBSERVATIONS_PER_PAGE
    requires observations == if e in t.executions && after + limit <= |HistoryOf(t, e)| then HistoryOf(t, e)[after..after + limit]
                             else if e in t.executions then HistoryOf(t, e)[after..] else []
    ensures PageValid(PageAnswer(SnapshotOf(t, e), observations, e, after), limit)
  {
    hide Consistent, SummaryValid, Contiguous, PublicStatus;
    SnapshotHead(t, e);
    if e in t.executions {
      PageIsContiguous(t, e, after, observations);
    } else {
      SummaryIsValid(t, e);
      SummaryTells(t.tombstones[e]);
      EmptyPage(e, after);
    }
  }

  lemma EmptyPage(e: ExecutionId, after: u64)
    ensures Contiguous([], e, after)
  {
  }

  lemma PageIsContiguous(t: Tables, e: ExecutionId, after: u64, observations: seq<Observation>)
    requires Consistent(t) && e in t.executions && after <= |t.executions[e].History()|
    requires observations <= t.executions[e].History()[after..]
    ensures Contiguous(observations, e, after)
  {
    hide Consistent, RecordValid;
    PeerCommit.SoundHistory(t, e);
    HotExecutionFinds(t, e);
    assert forall i :: 0 <= i < |observations| ==> observations[i] == t.executions[e].History()[after + i];
  }
}
