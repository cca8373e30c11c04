/** Admission of a request: replay before any gate, then gates, capacity, archival for room and
    the acceptance writes, all in one transaction. */
module PeerAdmission {
  import opened Prelude
  import opened PeerTypes
  import opened PeerTables
  import opened PeerEvolution
  import opened PeerTransaction
  import opened PeerCommit
  import opened PeerRetention

  /** `authorityMatches` stands for the comparison of the authority decision with the request. */
  datatype Admission = Admission(
    caller: CallerId,
    relationshipGeneration: u64,
    request: Request,
    authorityMatches: bool,
    execution: ExecutionId,
    acceptedAt: u64,
    maximumGlobalActive: u32,
    maximumDispatchQueue: u32,
    maximumHotTerminal: u64,
    archiveBefore: u64,
    archiveBatch: u32,
    resourcesReady: bool)

  predicate AdmissionValid(a: Admission) {
    && RequestValid(a.request)
    && a.authorityMatches
    && a.request.caller == a.caller
    && a.relationshipGeneration != 0
    && a.acceptedAt != 0
    && a.maximumGlobalActive != 0
    && a.maximumDispatchQueue != 0
    && a.maximumHotTerminal != 0
    && a.archiveBatch != 0
    && a.archiveBefore != 0
    && a.maximumGlobalActive <= a.maximumHotTerminal
  }

  datatype Rejection =
    | AdmissionClosed
    | RelationshipUnavailable
    | CatalogUnavailable
    | PeerCapacity
    | GlobalCapacity
    | DispatchCapacity
    | RetentionCapacity

  datatype AdmissionOutcome =
    | AcceptedNow(record: Record)
    | Replayed(snapshot: Snapshot)
    | Conflicting(snapshot: Snapshot)
    | Rejected(reason: Rejection)

  predicate RelationshipOpen(t: Tables, caller: CallerId, generation: u64, at: u64) {
    && caller in t.relationships
    && t.relationships[caller].enabled
    && t.relationships[caller].generation == generation
    && at <= t.relationships[caller].expiresAt
  }

  predicate CatalogOpen(t: Tables, a: Admission) {
    && a.caller in t.catalogs
    && t.catalogs[a.caller].relationshipGeneration == a.relationshipGeneration
    && t.catalogs[a.caller].generation == a.request.catalogGeneration
    && t.catalogs[a.caller].digest == a.request.catalogDigest
    && a.acceptedAt <= t.catalogs[a.caller].expiresAt
  }

  /** The first gate or capacity that refuses new work, before retention is considered. */
  function Refusal(t: Tables, a: Admission): Option<Rejection> {
    if !t.global.admissionOpen then Some(AdmissionClosed)
    else if !RelationshipOpen(t, a.caller, a.relationshipGeneration, a.acceptedAt) then Some(RelationshipUnavailable)
    else if !CatalogOpen(t, a) then Some(CatalogUnavailable)
    else if PeerActive(t.peers, a.caller) >= t.relationships[a.caller].maximumActive then Some(PeerCapacity)
    else if t.global.active >= a.maximumGlobalActive then Some(GlobalCapacity)
    else if t.global.dispatchQueued >= a.maximumDispatchQueue then Some(DispatchCapacity)
    else None
  }

  function RequestKeyOf(a: Admission): RequestKey { RequestKey(a.caller, a.request.requestId) }

  function NewRecord(a: Admission, sequence: u64): Record {
    Record(
      a.caller, a.relationshipGeneration, a.request, a.execution, sequence, a.acceptedAt,
      DispatchAvailable(a.acceptedAt), None, 0, Accounting(0, 0, a.request.inputBytes, None, None), Genesis, 1)
  }

  /** The record of a request just accepted: what was asked, by whom and when, next in order, queued, with
      an empty log and the input bytes already counted. */
  ghost predicate AcceptedAs(a: Admission, r: Record, sequence: u64) {
    && r.caller == a.caller && r.relationshipGeneration == a.relationshipGeneration && r.request == a.request
    && r.execution == a.execution && r.acceptanceSequence == sequence && r.acceptedAt == a.acceptedAt
    && r.phase == DispatchAvailable(a.acceptedAt) && r.cancellation.None? && r.History() == [] && r.lastSequence == 0
    && r.accounting.artifactBytes == a.request.inputBytes && r.accounting.outputs == 0 && r.accounting.observations == 0
    && r.accounting.durationMs.None? && r.accounting.costMicros.None? && r.revision == 1
  }

  /** Admission is open, the caller is enabled at this generation and its catalog is the one the request
      was made from, none of them expired. */
  ghost predicate GatesOpen(t: Tables, a: Admission) {
    && t.global.admissionOpen
    && a.caller in t.relationships && t.relationships[a.caller].enabled
    && t.relationships[a.caller].generation == a.relationshipGeneration && a.acceptedAt <= t.relationships[a.caller].expiresAt
    && a.caller in t.catalogs && t.catalogs[a.caller].relationshipGeneration == a.relationshipGeneration
    && t.catalogs[a.caller].generation == a.request.catalogGeneration && t.catalogs[a.caller].digest == a.request.catalogDigest
    && a.acceptedAt <= t.catalogs[a.caller].expiresAt
  }

  /** There is a place left for the caller, in total and in the queue. */
  ghost predicate PlacesLeft(t: Tables, a: Admission)
    requires a.caller in t.relationships
  {
    && |ActiveSetOf(t.executions, a.caller)| < t.relationships[a.caller].maximumActive
    && |ActiveSet(t.executions)| < a.maximumGlobalActive && |PreEntrySet(t.executions)| < a.maximumDispatchQueue
  }

  /** New work passes the gates exactly when they are open and places are left, counted over the records. */
  lemma RefusalExactly(t: Tables, a: Admission)
    requires Consistent(t)
    ensures Refusal(t, a).None? <==> GatesOpen(t, a) && PlacesLeft(t, a)
    ensures Refusal(t, a) == Some(AdmissionClosed) <==> !t.global.admissionOpen
    ensures Refusal(t, a) == Some(RelationshipUnavailable) <==>
              && t.global.admissionOpen
              && !(&& a.caller in t.relationships && t.relationships[a.caller].enabled
                   && t.relationships[a.caller].generation == a.relationshipGeneration
                   && a.acceptedAt <= t.relationships[a.caller].expiresAt)
    ensures Refusal(t, a).Some? && GatesOpen(t, a) ==>
              Refusal(t, a).value == if |ActiveSetOf(t.executions, a.caller)| >= t.relationships[a.caller].maximumActive then PeerCapacity
                                     else if |ActiveSet(t.executions)| >= a.maximumGlobalActive then GlobalCapacity
                                     else DispatchCapacity
  {
    hide PrimaryAgrees, RequestsAgree, DocumentsSound, IndexesAgree, RowsAgree, ArtifactsAgree, ActiveSet, PreEntrySet, SettledSet, ActiveSetOf;
    assert PeerActive(t.peers, a.caller) == |ActiveSetOf(t.executions, a.caller)|;
  }

  lemma NewRecordIsAccepted(a: Admission, sequence: u64)
    ensures AcceptedAs(a, NewRecord(a, sequence), sequence)
  {
  }

  /** Reserved hot capacity: settled records still hot, and every active one that will settle. */
  function ReservedHot(t: Tables): nat { t.global.hotTerminal + t.global.active }

  /** The tables admission writes to: unchanged, or after one archival batch that made room. */
  ghost predicate MadeRoom(t: Tables, v: Tables, a: Admission) {
    if ReservedHot(t) < a.maximumHotTerminal then v == t
    else exists p: Page :: p.tables == v && ArchivedBatch(t, p, a.archiveBefore, a.acceptedAt, a.archiveBatch)
  }

  /** Why room cannot be made, if it cannot. */
  ghost function RoomRefusal(t: Tables, a: Admission): Option<Error> {
    if ReservedHot(t) > U64_MAX then Some(EXHAUSTED)
    else if ReservedHot(t) < a.maximumHotTerminal then None
    else ArchiveRefusal(t, a.archiveBefore, a.acceptedAt, a.archiveBatch)
  }

  /** The reserved hot capacity once room has been made. */
  ghost function ReservedAfter(t: Tables, a: Admission): int {
    if ReservedHot(t) < a.maximumHotTerminal then ReservedHot(t)
    else ReservedHot(t) - BatchSize(t, a.archiveBefore, a.acceptedAt, a.archiveBatch)
  }

  /** Archives settled executions when the reserved hot capacity is used up. */
  method MakeRoom(t: Tables, a: Admission) returns (result: Result<Tables, Error>)
    requires Consistent(t)
    ensures result.Ok? ==> Consistent(result.value) && Evolves(t, result.value) && MadeRoom(t, result.value, a)
    ensures result.Err? <==> RoomRefusal(t, a).Some?
    ensures result.Err? ==> result.error == RoomRefusal(t, a).value
    ensures result.Ok? ==> ReservedHot(result.value) == ReservedAfter(t, a) <= U64_MAX
  {
    hide Consistent, Evolves, ArchivedBatch, ArchiveRefusal, BatchSize;
    Unchanged(t);
    if ReservedHot(t) > U64_MAX { return Err(EXHAUSTED); }
    if ReservedHot(t) < a.maximumHotTerminal { return Ok(t); }
    var page := ArchiveEligible(t, a.archiveBefore, a.acceptedAt, a.archiveBatch);
    if page.Err? { return Err(page.error); }
    assert MadeRoom(t, page.value.tables, a) by {
      assert page.value.tables == page.value.tables
          && ArchivedBatch(t, page.value, a.archiveBefore, a.acceptedAt, a.archiveBatch);
    }
    RoomMade(t, page.value, a);
    return Ok(page.value.tables);
  }

  lemma RoomMade(t: Tables, p: Page, a: Admission)
    requires ArchivedBatch(t, p, a.archiveBefore, a.acceptedAt, a.archiveBatch)
    ensures ReservedHot(p.tables) == ReservedHot(t) - p.archived
  {
    hide OnlyEligibleLeft, OldestLeft, Buried, Settles, Gone;
  }

  /** Archival for room changes neither identities nor any gate or active counter. */
  lemma RoomKeepsGates(t: Tables, v: Tables, a: Admission)
    requires MadeRoom(t, v, a)
    ensures v.byRequest == t.byRequest && v.relationships == t.relationships && v.catalogs == t.catalogs
    ensures v.peers == t.peers && v.available == t.available && v.claims == t.claims
    ensures v.global == t.global.(hotTerminal := v.global.hotTerminal, tombstones := v.global.tombstones,
                                  archiveGeneration := v.global.archiveGeneration, lastArchivedAt := v.global.lastArchivedAt)
  {
    hide OnlyEligibleLeft, OldestLeft, Buried, Settles;
  }

  predicate CountersMayGrow(v: Tables, a: Admission) {
    && v.global.nextSequence < U64_MAX && v.global.active < U32_MAX && v.global.dispatchQueued < U32_MAX
    && PeerAccountingOf(v.peers, a.caller).active < U32_MAX && PeerAccountingOf(v.peers, a.caller).revision < U64_MAX
  }

  /** The acceptance writes. */
  method WriteAcceptance(v: Tables, a: Admission) returns (result: Result<Tables, Error>)
    requires Consistent(v) && AdmissionValid(a) && RequestKeyOf(a) !in v.byRequest
    ensures result.Ok? ==>
              && a.execution !in Known(v) && a.resourcesReady
              && Consistent(result.value) && Evolves(v, result.value)
              && Accepted(v, result.value, NewRecord(a, v.global.nextSequence))
              && CountedIn(v, result.value, NewRecord(a, v.global.nextSequence))
    ensures result.Ok? <==> a.execution !in Known(v) && CountersMayGrow(v, a) && a.resourcesReady
    ensures result.Err? ==>
              result.error == if a.execution in Known(v) then Conflict else if !CountersMayGrow(v, a) then EXHAUSTED else Busy
  {
    hide Consistent, Evolves;
    ReadSnapshotFinds(v, a.execution);
    var snapshot := ReadSnapshot(v, a.execution);
    if snapshot.Err? { assert false; }
    if snapshot.value.Some? { return Err(Conflict); }
    var peer := PeerAccountingOf(v.peers, a.caller);
    if v.global.nextSequence == U64_MAX || v.global.active == U32_MAX || v.global.dispatchQueued == U32_MAX
       || peer.active == U32_MAX || peer.revision == U64_MAX {
      return Err(EXHAUSTED);
    }
    SequenceIsPositive(v);
    var record := NewRecord(a, v.global.nextSequence);
    if !RecordValid(record) { assert false; }
    if !a.resourcesReady { return Err(Busy); }
    var write := v.(
      executions := v.executions[record.execution := record],
      byRequest := v.byRequest[RequestKeyOf(a) := record.execution],
      locations := v.locations[record.execution := HotLocation],
      available := v.available[AvailableKey(record) := record.execution],
      global := v.global.(nextSequence := v.global.nextSequence + 1, active := v.global.active + 1,
                          dispatchQueued := v.global.dispatchQueued + 1),
      peers := v.peers[a.caller := PeerAccounting(peer.active + 1, peer.revision + 1)]);
    CommitAccept(v, write, record);
    return Ok(write);
  }

  lemma SequenceIsPositive(t: Tables)
    requires Consistent(t)
    ensures t.global.nextSequence != 0
  {
    hide PrimaryAgrees, RequestsAgree, IndexesAgree, RowsAgree, ArtifactsAgree, CountersAgree, RecordSound, TombstoneSound;
  }

  /** The request index of consistent tables leads to a snapshot of that very request. */
  lemma IndexedRequest(t: Tables, key: RequestKey)
    requires Consistent(t) && key in t.byRequest
    ensures t.byRequest[key] in Known(t)
    ensures SnapshotOf(t, t.byRequest[key]).CallerOf() == key.caller
    ensures SnapshotOf(t, t.byRequest[key]).RequestIdOf() == key.requestId
  {
    hide IndexesAgree, RowsAgree, ArtifactsAgree, CountersAgree, DocumentsSound;
  }

  /** What an accepted request leaves behind. */
  ghost predicate AdmittedTo(t: Tables, u: Tables, a: Admission) {
    exists v ::
      && MadeRoom(t, v, a) && ReservedHot(v) < a.maximumHotTerminal
      && Accepted(v, u, NewRecord(a, t.global.nextSequence)) && CountedIn(v, u, NewRecord(a, t.global.nextSequence))
  }

  /** No capacity is ever exceeded by an acceptance. */
  ghost predicate WithinCapacity(u: Tables, a: Admission) {
    && a.caller in u.relationships
    && PeerActive(u.peers, a.caller) <= u.relationships[a.caller].maximumActive
    && u.global.active <= a.maximumGlobalActive
    && u.global.dispatchQueued <= a.maximumDispatchQueue
    && |u.executions| <= a.maximumHotTerminal
  }

  /** Reserved hot capacity is one place for every hot record. */
  lemma ReservedIsHot(t: Tables)
    requires Consistent(t)
    ensures ReservedHot(t) == |t.executions|
  {
    hide PrimaryAgrees, RequestsAgree, DocumentsSound, IndexesAgree, RowsAgree, ArtifactsAgree;
    assert t.executions.Keys == ActiveSet(t.executions) + SettledSet(t.executions);
  }

  /** Nothing stands in the way of acceptance: room without archival, a fresh execution identity,
      resources, and no counter at the top of its range. */
  predicate CertainRoom(t: Tables, a: Admission) {
    && ReservedHot(t) < a.maximumHotTerminal
    && a.execution !in Known(t)
    && a.resourcesReady
    && CountersMayGrow(t, a)
  }

  /** What becomes of new work past replay and the gates: taken, refused for want of room, or the
      error that ends the transaction. */
  ghost function NewWork(t: Tables, a: Admission): Result<bool, Error> {
    if RoomRefusal(t, a).Some? then Err(RoomRefusal(t, a).value)
    else if ReservedAfter(t, a) >= a.maximumHotTerminal then Ok(false)
    else if a.execution in Known(t) then Err(Conflict)
    else if !CountersMayGrow(t, a) then Err(EXHAUSTED)
    else if !a.resourcesReady then Err(Busy)
    else Ok(true)
  }

  lemma CertainWork(t: Tables, a: Admission)
    requires CertainRoom(t, a)
    ensures NewWork(t, a) == Ok(true)
  {
  }

  lemma ValidRoom(t: Tables, a: Admission)
    requires AdmissionValid(a)
    ensures RoomRefusal(t, a) != Some(Invalid)
  {
  }

  /** A boundary that is not after the acceptance never makes the tables look contradictory. */
  lemma PastBoundaryIsSafe(t: Tables, a: Admission)
    requires a.archiveBefore <= a.acceptedAt
    ensures NewWork(t, a) != Err(INCONSISTENT)
  {
  }

  /** New work, past replay and the gates. */
  method AdmitNew(t: Tables, a: Admission) returns (result: Result<Option<Tables>, Error>)
    requires Consistent(t) && AdmissionValid(a) && RequestKeyOf(a) !in t.byRequest && Refusal(t, a).None?
    ensures result.Ok? && result.value.Some? ==>
              && var u := result.value.value;
              && Consistent(u) && Evolves(t, u) && AdmittedTo(t, u, a) && WithinCapacity(u, a)
              && u.executions.Keys >= {a.execution} && u.executions[a.execution] == NewRecord(a, t.global.nextSequence)
              && u.byRequest == t.byRequest[RequestKeyOf(a) := a.execution]
              && a.execution !in Known(t) && a.resourcesReady
    ensures result.Ok? && result.value.None? ==>
              exists v :: MadeRoom(t, v, a) && ReservedHot(v) >= a.maximumHotTerminal
    ensures match NewWork(t, a)
            case Err(error) => result == Err(error)
            case Ok(taken) => result.Ok? && result.value.Some? == taken
    ensures result != Err(Invalid)
  {
    hide Consistent, Evolves, MadeRoom, AdmissionValid, Settles, RoomRefusal, ReservedAfter;
    assert RoomRefusal(t, a) != Some(Invalid) by { ValidRoom(t, a); }
    var made := MakeRoom(t, a);
    if made.Err? { return Err(made.error); }
    var v := made.value;
    RoomKeepsGates(t, v, a);
    KnownStays(t, v);
    if ReservedHot(v) > U64_MAX { assert false; }
    if ReservedHot(v) >= a.maximumHotTerminal { return Ok(None); }
    var written := WriteAcceptance(v, a);
    if written.Err? { return Err(written.error); }
    EvolvesThrough(t, v, written.value);
    ReservedIsHot(written.value);
    return Ok(Some(written.value));
  }

  /** Without a new request identity there is no new execution. */
  lemma KnownStays(t: Tables, v: Tables)
    requires Consistent(t) && Consistent(v) && Evolves(t, v) && v.byRequest == t.byRequest
    ensures Known(t) == Known(v)
  {
    hide Consistent;
    forall e | e in Known(t)
      ensures e in Known(v)
    {
      assert ExecutionAdvances(t, v, e);
    }
    forall e | e in Known(v)
      ensures e in Known(t)
    {
      var key := RequestKey(AcceptanceOf(v, e).caller, AcceptanceOf(v, e).requestId);
      assert key in v.byRequest && v.byRequest[key] == e by { KnownByRequest(v, e); }
      IndexedRequest(t, key);
    }
  }

  lemma KnownByRequest(t: Tables, e: ExecutionId)
    requires Consistent(t) && e in Known(t)
    ensures RequestKey(AcceptanceOf(t, e).caller, AcceptanceOf(t, e).requestId) in t.byRequest
    ensures t.byRequest[RequestKey(AcceptanceOf(t, e).caller, AcceptanceOf(t, e).requestId)] == e
  {
    hide PrimaryAgrees, RequestsAgree, IndexesAgree, RowsAgree, ArtifactsAgree, CountersAgree, DocumentsSound;
    RequestNamesExecution(t, e);
  }
}
