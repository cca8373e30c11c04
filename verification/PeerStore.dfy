/** The serving-peer execution store: every public transaction as one atomic method. */
module PeerStore {
  import opened Prelude
  import opened PeerTypes
  import opened PeerTables
  import opened PeerEvolution
  import opened PeerTransaction
  import opened PeerCommit
  import opened PeerScan
  import opened PeerRetention
  import opened PeerRecovery
  import opened PeerAdmission

  function ExactClaim(record: Record, worker: WorkerId, generation: u64): Result<Claim, Error> {
    match record.phase.ClaimOf()
    case Some(claim) => if claim.worker == worker && claim.generation == generation then Ok(claim) else Err(Conflict)
    case None => Err(Conflict)
  }

  ghost predicate Owns(t: Tables, owner: CallerId, execution: ExecutionId) {
    execution in t.executions && t.executions[execution].caller == owner
  }

  /** The worker holds this exact claim on a hot execution of this caller. */
  ghost predicate Holds(t: Tables, owner: CallerId, execution: ExecutionId, worker: WorkerId, generation: u64) {
    && Owns(t, owner, execution) && t.executions[execution].phase.ClaimOf().Some?
    && t.executions[execution].phase.ClaimOf().value.worker == worker
    && t.executions[execution].phase.ClaimOf().value.generation == generation
  }

  /** Nothing but one record and the tables derived from it changed. */
  ghost predicate Rewrote(t: Tables, u: Tables, execution: ExecutionId, record: Record) {
    && execution in t.executions
    && u.executions == t.executions[execution := record]
    && SameElsewhere(t, u)
    && u.global == t.global.(active := u.global.active, dispatchQueued := u.global.dispatchQueued, hotTerminal := u.global.hotTerminal)
    && Raised(t, u, t.executions[execution].caller, t.executions[execution].phase.IsActive() && !record.phase.IsActive())
  }

  /** The phase with its claim's lease replaced. */
  function WithLease(phase: Phase, leaseExpiresAt: u64): Phase {
    match phase
    case DispatchClaimed(held) => DispatchClaimed(held.(leaseExpiresAt := leaseExpiresAt))
    case Entered(held, entry) => Entered(held.(leaseExpiresAt := leaseExpiresAt), entry)
    case CancellationRequested(Some(claim), evidence) =>
      CancellationRequested(Some(claim.(leaseExpiresAt := leaseExpiresAt)), evidence)
    case _ => phase
  }

  /** One adapter-entry attempt. Authority and resource holds are decided outside this store. */
  datatype EntryRequest = EntryRequest(
    owner: CallerId,
    execution: ExecutionId,
    worker: WorkerId,
    claimGeneration: u64,
    relationshipGeneration: u64,
    enteredAt: u64,
    authorityMatches: bool,
    resourcesReady: bool)

  datatype EntryOutcome = EnteredAdapter(record: Record) | EntryClosed | EntryRelationshipUnavailable

  /** The exact claim may cross the adapter-entry boundary now. */
  ghost predicate MayEnter(t: Tables, q: EntryRequest) {
    && q.enteredAt != 0
    && Holds(t, q.owner, q.execution, q.worker, q.claimGeneration)
    && t.executions[q.execution].phase.DispatchClaimed?
    && q.authorityMatches
    && q.enteredAt <= t.executions[q.execution].phase.held.leaseExpiresAt
    && q.enteredAt <= t.executions[q.execution].request.deadline
    && t.global.admissionOpen
    && RelationshipOpen(t, q.owner, q.relationshipGeneration, q.enteredAt)
    && q.resourcesReady
    && t.executions[q.execution].revision < U64_MAX
  }

  /** The worker holds a claim that crossed the adapter-entry boundary and gives a reason. */
  ghost predicate MayLose(
    t: Tables, owner: CallerId, execution: ExecutionId, worker: WorkerId, generation: u64, at: u64, reasonBytes: nat)
  {
    && at != 0 && 0 < reasonBytes <= MAX_UNCERTAINTY_REASON_BYTES
    && Holds(t, owner, execution, worker, generation)
    && t.executions[execution].phase.EvidenceOf().Some?
  }

  /** How admission reports what became of new work. */
  predicate WorkAnswer(work: Result<bool, Error>, result: Result<AdmissionOutcome, Error>) {
    if work.Err? then result == Err(work.error)
    else result.Ok? && if work.value then result.value.AcceptedNow? else result.value == Rejected(RetentionCapacity)
  }

  datatype ClaimOutcome = Empty | ClaimedWork(record: Record) | ClaimedCancellation(record: Record)

  datatype AppendOutcome = AppendedNow(record: Record) | AppendReplayed(record: Record)

  /** The observation continues the log of this caller's execution, and the resources of a terminal
      one are at hand. */
  ghost predicate Continues(t: Tables, owner: CallerId, execution: ExecutionId, o: Observation, resourcesReady: bool) {
    Owns(t, owner, execution) && HistoryTakes(t.executions[execution], o) && (o.event.Final? ==> resourcesReady)
  }

  ghost predicate NoCounterLeft(t: Tables, execution: ExecutionId, settles: bool) {
    execution in t.executions && Full(t, t.executions[execution], settles)
  }

  /** The append wrote this document, and nothing else about the execution changed. */
  ghost predicate Wrote(t: Tables, u: Tables, execution: ExecutionId, o: Observation, record: Record) {
    && execution in t.executions
    && RecordValid(t.executions[execution]) && MayAppend(t.executions[execution], o)
    && record == Appended(t.executions[execution], o)
    && Rewrote(t, u, execution, record)
    && Extended(t.executions[execution], record, o)
  }

  /** The record one document later: the log ends in it, every count follows, a terminal document settles
      the record at its time, and nothing else of the record moves. */
  ghost predicate Extended(a: Record, b: Record, o: Observation) {
    && b.History() == a.History() + [o] && b.lastSequence == o.sequence && b.revision == a.revision + 1
    && b.phase == (if o.event.Final? then Terminal(o.sequence, o.observedAt) else a.phase)
    && b.accounting.observations == a.accounting.observations + 1
    && b.accounting.outputs == a.accounting.outputs + (if o.event.Output? then 1 else 0)
    && b.accounting.artifactBytes == a.accounting.artifactBytes + (if o.event.Output? && o.event.size.Some? then o.event.size.value else 0)
    && (o.event.Final? && o.event.usage.Some? ==>
          && b.accounting.durationMs == o.event.usage.value.durationMs
          && b.accounting.costMicros == o.event.usage.value.costMicros)
    && (!(o.event.Final? && o.event.usage.Some?) ==>
          b.accounting.durationMs == a.accounting.durationMs && b.accounting.costMicros == a.accounting.costMicros)
    && b == a.(phase := b.phase, lastSequence := b.lastSequence, accounting := b.accounting, digest := b.digest, revision := b.revision)
  }

  lemma AppendedIsExtended(r: Record, o: Observation)
    requires RecordValid(r) && MayAppend(r, o) && r.revision < U64_MAX
    ensures Extended(r, Appended(r, o), o)
  {
  }

  /** A first cancellation: work that never entered loses its claim and stands in the queue under its
      acceptance sequence, entered work keeps its claim and evidence, and settled work its phase. */
  ghost predicate CancelledWell(a: Record, u: Tables, e: ExecutionId) {
    && e in u.executions
    && var b := u.executions[e];
    && (a.phase.DispatchAvailable? || a.phase.DispatchClaimed? ==>
          && b.phase.CancellationRequested? && b.phase.claim.None? && b.phase.evidence.None?
          && Key(a.acceptanceSequence, e) in u.available && u.available[Key(a.acceptanceSequence, e)] == e
          && (forall k :: k in u.claims ==> u.claims[k] != e))
    && (a.phase.Entered? ==>
          && b.phase.CancellationRequested? && b.phase.claim == Some(a.phase.held) && b.phase.evidence == Some(a.phase.entry)
          && Key(a.phase.held.leaseExpiresAt, e) in u.claims && u.claims[Key(a.phase.held.leaseExpiresAt, e)] == e
          && (forall k :: k in u.available ==> u.available[k] != e))
    && (a.phase.Terminal? || a.phase.Uncertain? ==> b.phase == a.phase)
  }

  /** Where a hot execution stands, by its phase alone: queued under its acceptance sequence, claimed
      under the end of its lease, or settled under the time it settled, and nowhere else. */
  ghost predicate StandsAsPhaseSays(u: Tables, e: ExecutionId) {
    && e in u.executions
    && var r := u.executions[e];
    && (r.phase.ClaimOf().None? && r.phase.IsActive() ==>
          && Key(r.acceptanceSequence, e) in u.available && u.available[Key(r.acceptanceSequence, e)] == e
          && (forall k :: k in u.claims ==> u.claims[k] != e))
    && (r.phase.ClaimOf().Some? ==>
          && Key(r.phase.ClaimOf().value.leaseExpiresAt, e) in u.claims
          && u.claims[Key(r.phase.ClaimOf().value.leaseExpiresAt, e)] == e
          && (forall k :: k in u.available ==> u.available[k] != e))
    && (r.phase.Terminal? ==> Key(r.phase.terminalAt, e) in u.terminal && u.terminal[Key(r.phase.terminalAt, e)] == e)
    && (r.phase.Uncertain? ==> Key(r.phase.uncertainAt, e) in u.terminal && u.terminal[Key(r.phase.uncertainAt, e)] == e)
    && (!r.phase.IsActive() ==>
          (forall k :: k in u.available ==> u.available[k] != e) && (forall k :: k in u.claims ==> u.claims[k] != e))
  }

  lemma StandsByPhase(u: Tables, e: ExecutionId)
    requires Consistent(u) && e in u.executions
    ensures StandsAsPhaseSays(u, e)
  {
    hide Consistent;
    HotExecutionFinds(u, e);
    if u.executions[e].phase.ClaimOf().Some? { ClaimRow(u, e); } else { SettledOrQueuedRow(u, e); }
    forall k | k in u.claims && u.claims[k] == e
      ensures u.executions[e].phase.ClaimOf().Some?
    {
      RowOwner(u, k, Claims);
    }
    forall k | k in u.available && u.available[k] == e
      ensures u.executions[e].phase.IsActive() && u.executions[e].phase.ClaimOf().None?
    {
      RowOwner(u, k, Available);
    }
  }

  lemma CancellationStands(a: Record, u: Tables, e: ExecutionId)
    requires Consistent(u) && e in u.executions && u.executions[e].phase == Cancelled(a.phase)
    requires u.executions[e].acceptanceSequence == a.acceptanceSequence
    ensures CancelledWell(a, u, e)
  {
    hide Consistent;
    StandsByPhase(u, e);
  }

  /** The claim with another lease, and nothing else of the phase. */
  ghost predicate LeaseMoved(a: Phase, b: Phase, leaseExpiresAt: u64) {
    && a.ClaimOf().Some? && b.ClaimOf().Some?
    && b.ClaimOf().value.worker == a.ClaimOf().value.worker && b.ClaimOf().value.generation == a.ClaimOf().value.generation
    && b.ClaimOf().value.claimedAt == a.ClaimOf().value.claimedAt && b.ClaimOf().value.leaseExpiresAt == leaseExpiresAt
    && b.EvidenceOf() == a.EvidenceOf()
    && (a.DispatchClaimed? <==> b.DispatchClaimed?) && (a.Entered? <==> b.Entered?)
  }

  /** Nothing queued was accepted before this execution. */
  ghost predicate AcceptedFirst(t: Tables, e: ExecutionId) {
    e in t.executions && forall other :: other in t.executions && Queued(t.executions[other].phase) ==>
      t.executions[e].acceptanceSequence <= t.executions[other].acceptanceSequence
  }

  /** Waiting for a worker: to be dispatched, or to have its cancellation dispatched. */
  predicate Queued(phase: Phase) { phase.DispatchAvailable? || phase == CancellationRequested(None, None) }

  lemma LeastKeyIsFirst(t: Tables, e: ExecutionId)
    requires Consistent(t) && e in t.executions
    requires forall k :: k in t.available && k.execution != e ==> KeyBelow(AvailableKey(t.executions[e]), k)
    ensures AcceptedFirst(t, e)
  {
    hide Consistent;
    HotExecutionFinds(t, e);
    forall other | other in t.executions && Queued(t.executions[other].phase)
      ensures t.executions[e].acceptanceSequence <= t.executions[other].acceptanceSequence
    {
      HotExecutionFinds(t, other);
      SettledOrQueuedRow(t, other);
    }
  }

  /** The document is already in the log of this caller's execution, or another one in its place. */
  ghost predicate Repeats(t: Tables, owner: CallerId, execution: ExecutionId, o: Observation) {
    && Owns(t, owner, execution) && ObservationValid(o) && o.execution == execution
    && o.sequence <= |t.executions[execution].History()|
  }

  /** The same document again is a replay, another one in its place a conflict. */
  ghost function RepeatAnswer(t: Tables, owner: CallerId, execution: ExecutionId, o: Observation): Result<AppendOutcome, Error>
    requires Repeats(t, owner, execution, o)
  {
    if t.executions[execution].History()[o.sequence - 1] == o then Ok(AppendReplayed(t.executions[execution])) else Err(Conflict)
  }

  /** The phase a first cancellation request leads to. */
  function Cancelled(phase: Phase): Phase {
    match phase
    case DispatchAvailable(_) => CancellationRequested(None, None)
    case DispatchClaimed(_) => CancellationRequested(None, None)
    case Entered(held, entry) => CancellationRequested(Some(held), Some(entry))
    case _ => phase
  }

  /** New, the same again, or of a newer generation. */
  predicate Replaces(relationships: map<CallerId, Relationship>, relationship: Relationship) {
    relationship.caller in relationships ==>
      || relationships[relationship.caller] == relationship
      || relationships[relationship.caller].generation < relationship.generation
  }

  predicate ReplacesCatalog(catalogs: map<CallerId, Catalog>, catalog: Catalog) {
    catalog.caller in catalogs ==>
      catalogs[catalog.caller] == catalog || catalogs[catalog.caller].generation < catalog.generation
  }

  /** A first cancellation, or the same one again. */
  predicate MayCancel(r: Record, request: CancellationRequest) {
    if r.cancellation.Some? then r.cancellation.value.request == request else r.revision < U64_MAX
  }

  /** A first acknowledgement of the recorded cancellation, or the same one again. */
  predicate MayAcknowledge(r: Record, acknowledgement: Acknowledgement) {
    && r.cancellation.Some? && r.cancellation.value.request.requestId == acknowledgement.requestId
    && if r.cancellation.value.acknowledgement.Some? then r.cancellation.value.acknowledgement.value == acknowledgement
       else r.revision < U64_MAX
  }

  /** One transaction of the store with its arguments, for runs of any length and order. */
  datatype Op =
    | OpenAdmission(open: bool)
    | Configure(relationship: Relationship)
    | Publish(catalog: Catalog)
    | Submit(admission: Admission)
    | Dispatch(worker: WorkerId, claimedAt: u64, leaseExpiresAt: u64)
    | Enter(entry: EntryRequest)
    | Release(owner: CallerId, execution: ExecutionId, worker: WorkerId, generation: u64, at: u64)
    | Extend(owner: CallerId, execution: ExecutionId, worker: WorkerId, generation: u64, leaseExpiresAt: u64)
    | Lose(owner: CallerId, execution: ExecutionId, worker: WorkerId, generation: u64, at: u64, reasonBytes: nat)
    | Append(owner: CallerId, execution: ExecutionId, observation: Observation, resourcesReady: bool)
    | Cancel(owner: CallerId, cancellation: CancellationRequest, at: u64)
    | Acknowledge(owner: CallerId, acknowledgement: Acknowledgement, valid: bool, at: u64)
    | ArchiveSettled(before: u64, archivedAt: u64, limit: u32)
    | RecoverAfterRestart(at: u64, count: nat)

  lemma OnlyUnendedGrow(r: Record, o: Observation)
    requires MayAppend(r, o)
    ensures !r.phase.Terminal?
  {
  }

  /** A snapshot's head is the length of its history. */
  lemma SnapshotHead(t: Tables, e: ExecutionId)
    requires Consistent(t) && e in Known(t)
    ensures SnapshotOf(t, e).LastSequence() == |HistoryOf(t, e)|
    ensures SnapshotOf(t, e).CallerOf() == AcceptanceOf(t, e).caller
    ensures e in t.executions ==> |t.executions[e].History()| == t.executions[e].lastSequence
  {
    hide PrimaryAgrees, RequestsAgree, IndexesAgree, RowsAgree, ArtifactsAgree, CountersAgree;
    if e in t.executions {
      assert RecordSound(t.executions[e]);
    } else {
      assert TombstoneSound(t.tombstones[e]);
    }
  }

  lemma PageRow(t: Tables, e: ExecutionId, sequence: u64)
    requires Consistent(t) && e in t.executions && 1 <= sequence <= t.executions[e].lastSequence
    ensures |HistoryOf(t, e)| == t.executions[e].lastSequence
    ensures Key(sequence, e) in t.observations && t.observations[Key(sequence, e)] == HistoryOf(t, e)[sequence - 1]
    ensures t.observations[Key(sequence, e)].execution == e && t.observations[Key(sequence, e)].sequence == sequence
  {
    hide Consistent, RecordValid;
    HotExecutionFinds(t, e);
    LogRow(t, e, sequence);
  }

  /** The units an active record gives back when it settles, and nothing of a settled one. */
  ghost predicate GivenBack(t: Tables, u: Tables, r: Record) {
    var n := Unit(r.phase.IsActive());
    && t.global.active - n >= 0 && t.global.dispatchQueued - Unit(r.phase.IsPreEntry()) >= 0 && t.global.hotTerminal + n <= U64_MAX
    && u.global == t.global.(active := t.global.active - n, dispatchQueued := t.global.dispatchQueued - Unit(r.phase.IsPreEntry()),
                             hotTerminal := t.global.hotTerminal + n)
    && PeerActive(u.peers, r.caller) == PeerActive(t.peers, r.caller) - n
    && (forall c :: c != r.caller ==> PeerActive(u.peers, c) == PeerActive(t.peers, c))
    && Raised(t, u, r.caller, r.phase.IsActive())
  }

  class PeerStore {
    var tables: Tables

    constructor ()
      ensures tables == EMPTY && Consistent(tables)
    {
      hide Consistent;
      EmptyConsistent();
      tables := EMPTY;
    }

    method SetAdmissionOpen(open: bool)
      requires Consistent(tables)
      modifies this
      ensures Consistent(tables) && Evolves(old(tables), tables)
      ensures tables == old(tables).(global := old(tables).global.(admissionOpen := open))
    {
      hide Consistent, Evolves;
      var write := tables.(global := tables.global.(admissionOpen := open));
      GateRowsOwned(tables);
      GateKeepsConsistent(tables, write);
      tables := write;
    }

    /** Configures a caller; only a newer generation replaces an older one. */
    method ConfigureRelationship(relationship: Relationship) returns (result: Result<(), Error>)
      requires Consistent(tables)
      modifies this
      ensures Consistent(tables) && Evolves(old(tables), tables)
      ensures result.Err? ==> tables == old(tables)
      ensures result.Ok? ==>
                tables == old(tables).(relationships := old(tables).relationships[relationship.caller := relationship])
      ensures result.Ok? <==> RelationshipValid(relationship) && Replaces(old(tables).relationships, relationship)
    {
      hide Consistent, Evolves;
      Unchanged(tables);
      if !RelationshipValid(relationship) { return Err(Invalid); }
      if relationship.caller in tables.relationships {
        var existing := tables.relationships[relationship.caller];
        if existing == relationship {
          assert tables.relationships == tables.relationships[relationship.caller := relationship];
          return Ok(());
        }
        if relationship.generation <= existing.generation { return Err(Conflict); }
      }
      var write := tables.(relationships := tables.relationships[relationship.caller := relationship]);
      GateRowsOwned(tables);
      GateKeepsConsistent(tables, write);
      tables := write;
      return Ok(());
    }

    /** Publishes the catalog of an enabled caller at its current generation. */
    method PublishCatalog(catalog: Catalog) returns (result: Result<(), Error>)
      requires Consistent(tables)
      modifies this
      ensures Consistent(tables) && Evolves(old(tables), tables)
      ensures result.Err? ==> tables == old(tables)
      ensures result.Ok? <==>
                && CatalogValid(catalog)
                && catalog.caller in old(tables).relationships
                && old(tables).relationships[catalog.caller].enabled
                && old(tables).relationships[catalog.caller].generation == catalog.relationshipGeneration
                && ReplacesCatalog(old(tables).catalogs, catalog)
      ensures result.Ok? ==> tables == old(tables).(catalogs := old(tables).catalogs[catalog.caller := catalog])
    {
      hide Consistent, Evolves;
      Unchanged(tables);
      if !CatalogValid(catalog) { return Err(Invalid); }
      if catalog.caller !in tables.relationships { return Err(NotFound); }
      var relationship := tables.relationships[catalog.caller];
      if !relationship.enabled || relationship.generation != catalog.relationshipGeneration { return Err(Conflict); }
      if catalog.caller in tables.catalogs {
        var existing := tables.catalogs[catalog.caller];
        if existing == catalog {
          assert tables.catalogs == tables.catalogs[catalog.caller := catalog];
          return Ok(());
        }
        if catalog.generation <= existing.generation { return Err(Conflict); }
      }
      var write := tables.(catalogs := tables.catalogs[catalog.caller := catalog]);
      GateRowsOwned(tables);
      GateKeepsConsistent(tables, write);
      tables := write;
      return Ok(());
    }

    /** Admits a request. A request already known is answered from the store whatever the gates
        and capacities now are; anything but an acceptance leaves the store as it was, including
        the archival that made no room. */
    method Admit(a: Admission) returns (result: Result<AdmissionOutcome, Error>)
      requires Consistent(tables)
      modifies this
      ensures Consistent(tables) && Evolves(old(tables), tables)
      ensures !(result.Ok? && result.value.AcceptedNow?) ==> tables == old(tables)
      ensures RequestKeyOf(a) in old(tables).byRequest && RequestValid(a.request) ==>
                && old(tables).byRequest[RequestKeyOf(a)] in Known(old(tables))
                && var known := SnapshotOf(old(tables), old(tables).byRequest[RequestKeyOf(a)]);
                   result == Ok(if known.DigestOf() == a.request.digest then Replayed(known) else Conflicting(known))
      ensures result.Ok? && (result.value.Replayed? || result.value.Conflicting?) ==> RequestKeyOf(a) in old(tables).byRequest
      ensures result == Err(Invalid) <==>
                !RequestValid(a.request) || (RequestKeyOf(a) !in old(tables).byRequest && !AdmissionValid(a))
      ensures RequestKeyOf(a) !in old(tables).byRequest && AdmissionValid(a) && Refusal(old(tables), a).Some? ==>
                result == Ok(Rejected(Refusal(old(tables), a).value))
      ensures RequestKeyOf(a) !in old(tables).byRequest && AdmissionValid(a) && Refusal(old(tables), a).None? ==>
                WorkAnswer(NewWork(old(tables), a), result)
      ensures result == Ok(Rejected(RetentionCapacity)) ==>
                exists v :: MadeRoom(old(tables), v, a) && ReservedHot(v) >= a.maximumHotTerminal
      ensures result.Ok? && result.value.AcceptedNow? ==>
                && RequestKeyOf(a) !in old(tables).byRequest && a.execution !in Known(old(tables))
                && AdmissionValid(a) && Refusal(old(tables), a).None? && GatesOpen(old(tables), a)
                && a.authorityMatches && a.request.wellFormed && a.request.caller == a.caller && a.resourcesReady
                && result.value.record == NewRecord(a, old(tables).global.nextSequence)
                && AcceptedAs(a, result.value.record, old(tables).global.nextSequence)
                && AdmittedTo(old(tables), tables, a) && WithinCapacity(tables, a)
                && a.execution in tables.executions && tables.executions[a.execution] == result.value.record
                && tables.byRequest == old(tables).byRequest[RequestKeyOf(a) := a.execution]
    {
      hide Consistent, Evolves, MadeRoom, AdmittedTo, WithinCapacity, NewWork, GatesOpen, PlacesLeft, AcceptedAs;
      Unchanged(tables);
      if !RequestValid(a.request) { return Err(Invalid); }
      var key := RequestKeyOf(a);
      if key in tables.byRequest {
        IndexedRequest(tables, key);
        ReadSnapshotFinds(tables, tables.byRequest[key]);
        var found := ReadSnapshot(tables, tables.byRequest[key]);
        if found.Err? || found.value.None? { assert false; }
        var existing := found.value.value;
        if existing.CallerOf() != a.caller || existing.RequestIdOf() != a.request.requestId { assert false; }
        return Ok(if existing.DigestOf() == a.request.digest then Replayed(existing) else Conflicting(existing));
      }
      if !AdmissionValid(a) { return Err(Invalid); }
      RefusalExactly(tables, a);
      NewRecordIsAccepted(a, tables.global.nextSequence);
      var refusal := Refusal(tables, a);
      if refusal.Some? { return Ok(Rejected(refusal.value)); }
      var admitted := AdmitNew(tables, a);
      if admitted.Err? { return Err(admitted.error); }
      if admitted.value.None? { return Ok(Rejected(RetentionCapacity)); }
      tables := admitted.value.value;
      return Ok(AcceptedNow(tables.executions[a.execution]));
    }

    /** The execution of a request, hot or archived. */
    method ExecutionByRequest(owner: CallerId, request: RequestId) returns (result: Result<Option<Snapshot>, Error>)
      requires Consistent(tables)
      ensures var key := RequestKey(owner, request);
              if key in tables.byRequest then
                tables.byRequest[key] in Known(tables) && result == Ok(Some(SnapshotOf(tables, tables.byRequest[key])))
              else result == Ok(None)
    {
      hide Consistent;
      var key := RequestKey(owner, request);
      if key !in tables.byRequest { return Ok(None); }
      IndexedRequest(tables, key);
      ReadSnapshotFinds(tables, tables.byRequest[key]);
      var found := ReadSnapshot(tables, tables.byRequest[key]);
      if found.Err? || found.value.None? { assert false; }
      var existing := found.value.value;
      if existing.CallerOf() != owner || existing.RequestIdOf() != request { assert false; }
      return Ok(Some(existing));
    }

    /** A page of the log after a cursor. An archived execution has no page left to read. */
    method Observations(owner: CallerId, execution: ExecutionId, after: u64, limit: nat)
      returns (result: Result<(Snapshot, seq<Observation>), Error>)
      requires Consistent(tables)
      ensures result.Ok? <==>
                && execution in Known(tables) && AcceptanceOf(tables, execution).caller == owner
                && after <= |HistoryOf(tables, execution)|
      ensures result.Err? ==>
                result.error == if execution in Known(tables) && AcceptanceOf(tables, execution).caller == owner
                                then InvalidCursor else NotFound
      ensures result.Ok? ==>
                && result.value.0 == SnapshotOf(tables, execution)
                && var log := HistoryOf(tables, execution);
                   result.value.1 == if execution in tables.executions && after + limit <= |log| then log[after..after + limit]
                                     else if execution in tables.executions then log[after..] else []
    {
      hide Consistent, ReadSnapshot, HistoryOf, AcceptanceOf;
      ReadSnapshotFinds(tables, execution);
      var found := ReadSnapshot(tables, execution);
      if found.Err? { assert false; }
      if found.value.Some? { SnapshotHead(tables, execution); }
      if found.value.None? || found.value.value.CallerOf() != owner { return Err(NotFound); }
      var snapshot := found.value.value;
      if after > snapshot.LastSequence() { return Err(InvalidCursor); }
      if snapshot.Archived? { return Ok((snapshot, [])); }
      var record := snapshot.record;
      ghost var log := HistoryOf(tables, execution);
      var observations := [];
      var sequence: nat := after + 1;
      while sequence <= record.lastSequence && |observations| < limit
        invariant after < sequence <= record.lastSequence + 1 && |observations| == sequence - after - 1 <= limit
        invariant observations == log[after..sequence - 1]
      {
        PageRow(tables, execution, sequence);
        if Key(sequence, execution) !in tables.observations { assert false; }
        var o := tables.observations[Key(sequence, execution)];
        if o.execution != execution || o.sequence != sequence { assert false; }
        observations := observations + [o];
        sequence := sequence + 1;
      }
      return Ok((snapshot, observations));
    }

    /** Archives the oldest settled executions. */
    method Archive(before: u64, archivedAt: u64, limit: u32) returns (result: Result<(u32, bool), Error>)
      requires Consistent(tables)
      modifies this
      ensures Consistent(tables) && Evolves(old(tables), tables)
      ensures result.Err? ==> tables == old(tables)
      ensures result.Ok? ==> ArchivedBatch(old(tables), Page(tables, result.value.0, result.value.1), before, archivedAt, limit)
      ensures result.Ok? ==> result.value.0 == BatchSize(old(tables), before, archivedAt, limit)
      ensures result.Err? <==> ArchiveRefusal(old(tables), before, archivedAt, limit).Some?
      ensures result.Err? ==> result.error == ArchiveRefusal(old(tables), before, archivedAt, limit).value
    {
      hide Consistent, Evolves, ArchivedBatch, ArchiveRefusal, BatchSize;
      Unchanged(tables);
      var page := ArchiveEligible(tables, before, archivedAt, limit);
      if page.Err? { return Err(page.error); }
      tables := page.value.tables;
      return Ok((page.value.archived, page.value.more));
    }

    /** Recovers claims after a restart. */
    method Recover(at: u64, limit: nat) returns (result: Result<(nat, nat, bool), Error>)
      requires Consistent(tables)
      modifies this
      ensures Consistent(tables) && Evolves(old(tables), tables)
      ensures result.Err? ==> tables == old(tables) && result.error != INCONSISTENT
      ensures result.Ok? ==>
                && RecoveredBatch(old(tables), Recovery(tables, result.value.0, result.value.1, result.value.2), at, limit)
                && RecoveredFirst(old(tables), tables, at)
      ensures result.Ok? <==> at != 0 && RecoveryFits(old(tables), Earliest(old(tables).claims, limit))
    {
      hide Consistent, Evolves, RecoveredBatch, RecoveredFirst, RecoveryFits, Earliest;
      Unchanged(tables);
      var pass := RecoverClaims(tables, at, limit);
      if pass.Err? { return Err(pass.error); }
      tables := pass.value.tables;
      return Ok((pass.value.requeued, pass.value.uncertain, pass.value.more));
    }

    /** Returns a pre-entry claim to the dispatch queue. */
    method ReleaseClaim(owner: CallerId, execution: ExecutionId, worker: WorkerId, generation: u64, availableAt: u64)
      returns (result: Result<Record, Error>)
      requires Consistent(tables)
      modifies this
      ensures Consistent(tables) && Evolves(old(tables), tables)
      ensures result.Err? ==> tables == old(tables) && result.error != INCONSISTENT
      ensures result.Ok? <==>
                && availableAt != 0 && Holds(old(tables), owner, execution, worker, generation)
                && old(tables).executions[execution].phase.IsPreEntry()
                && old(tables).executions[execution].revision < U64_MAX
      ensures result.Ok? ==>
                var before := old(tables).executions[execution];
                && Rewrote(old(tables), tables, execution, result.value)
                && result.value == Rewritten(
                     before,
                     if before.phase.DispatchClaimed? then DispatchAvailable(availableAt) else CancellationRequested(None, None),
                     before.cancellation)
    {
      hide Consistent, Evolves, RecordSound;
      Unchanged(tables);
      HotExecutionFinds(tables, execution);
      if availableAt == 0 { return Err(Invalid); }
      var write := tables;
      var record :- OwnedExecution(write, owner, execution);
      var claim :- ExactClaim(record, worker, generation);
      var cancellationOnly := record.phase.CancellationRequested? && record.phase.evidence.None?;
      if !record.phase.DispatchClaimed? && !cancellationOnly { return Err(Conflict); }
      ClaimRow(write, execution);
      var claims := RemoveRow(write.claims, ClaimKey(execution, claim), execution);
      if claims.Err? { assert false; }
      record := record.(phase := if cancellationOnly then CancellationRequested(None, None)
                                 else DispatchAvailable(availableAt));
      record :- Bumped(record);
      if !RecordValid(record) { assert false; }
      write := write.(executions := write.executions[execution := record],
                      claims := claims.value,
                      available := write.available[AvailableKey(record) := execution]);
      CommitPhase(tables, write, execution, record);
      tables := write;
      return Ok(record);
    }

    /** Moves the lease of an exact claim forward, in whatever phase holds it. */
    method ExtendClaim(owner: CallerId, execution: ExecutionId, worker: WorkerId, generation: u64, leaseExpiresAt: u64)
      returns (result: Result<(), Error>)
      requires Consistent(tables)
      modifies this
      ensures Consistent(tables) && Evolves(old(tables), tables)
      ensures result.Err? ==> tables == old(tables) && result.error != INCONSISTENT
      ensures result.Ok? <==>
                && Holds(old(tables), owner, execution, worker, generation)
                && old(tables).executions[execution].phase.ClaimOf().value.leaseExpiresAt < leaseExpiresAt
                && old(tables).executions[execution].revision < U64_MAX
      ensures result.Ok? ==>
                var before := old(tables).executions[execution];
                && Rewrote(old(tables), tables, execution,
                           Rewritten(before, WithLease(before.phase, leaseExpiresAt), before.cancellation))
                && LeaseMoved(before.phase, tables.executions[execution].phase, leaseExpiresAt)
    {
      hide Consistent, Evolves, RecordSound;
      Unchanged(tables);
      HotExecutionFinds(tables, execution);
      var write := tables;
      var record :- OwnedExecution(write, owner, execution);
      var claim :- ExactClaim(record, worker, generation);
      if leaseExpiresAt <= claim.leaseExpiresAt { return Err(Invalid); }
      ClaimRow(write, execution);
      var claims := RemoveRow(write.claims, ClaimKey(execution, claim), execution);
      if claims.Err? { assert false; }
      record := record.(phase := WithLease(record.phase, leaseExpiresAt));
      record :- Bumped(record);
      if !RecordValid(record) { assert false; }
      write := write.(executions := write.executions[execution := record],
                      claims := claims.value[ClaimKey(execution, claim.(leaseExpiresAt := leaseExpiresAt)) := execution]);
      CommitPhase(tables, write, execution, record);
      tables := write;
      return Ok(());
    }

    /** Records the adapter-entry boundary of an exact pre-entry claim. */
    method MarkEntered(q: EntryRequest) returns (result: Result<EntryOutcome, Error>)
      requires Consistent(tables)
      modifies this
      ensures Consistent(tables) && Evolves(old(tables), tables)
      ensures result.Err? ==> result.error != INCONSISTENT
      ensures result.Ok? && result.value.EnteredAdapter? <==> MayEnter(old(tables), q)
      ensures !(result.Ok? && result.value.EnteredAdapter?) ==> tables == old(tables)
      ensures result.Ok? && result.value.EnteredAdapter? ==>
                var before := old(tables).executions[q.execution];
                && Rewrote(old(tables), tables, q.execution, result.value.record)
                && result.value.record == Rewritten(
                     before,
                     Entered(before.phase.held, Evidence(q.worker, q.claimGeneration, q.enteredAt)),
                     before.cancellation)
    {
      hide Consistent, Evolves, RecordSound;
      Unchanged(tables);
      HotExecutionFinds(tables, q.execution);
      if q.enteredAt == 0 { return Err(Invalid); }
      var write := tables;
      var record :- OwnedExecution(write, q.owner, q.execution);
      if !q.authorityMatches { return Err(Invalid); }
      var claim :- ExactClaim(record, q.worker, q.claimGeneration);
      if !record.phase.DispatchClaimed? { return Err(Conflict); }
      if q.enteredAt > claim.leaseExpiresAt || q.enteredAt > record.request.deadline { return Err(Conflict); }
      if !write.global.admissionOpen { return Ok(EntryClosed); }
      if !RelationshipOpen(write, q.owner, q.relationshipGeneration, q.enteredAt) {
        return Ok(EntryRelationshipUnavailable);
      }
      if !q.resourcesReady { return Err(Busy); }
      record := record.(phase := Entered(claim, Evidence(q.worker, q.claimGeneration, q.enteredAt)));
      record :- Bumped(record);
      ClaimRow(tables, q.execution);
      ReleaseSucceeds(tables, q.execution);
      if write.global.dispatchQueued == 0 { assert false; }
      if !RecordValid(record) { assert false; }
      write := write.(executions := write.executions[q.execution := record],
                      global := write.global.(dispatchQueued := write.global.dispatchQueued - 1));
      CommitPhase(tables, write, q.execution, record);
      tables := write;
      return Ok(EnteredAdapter(record));
    }

    /** Retains entered work whose outcome was lost; it gives back its active unit. */
    method MarkUncertain(owner: CallerId, execution: ExecutionId, worker: WorkerId, generation: u64, at: u64, reasonBytes: nat)
      returns (result: Result<Record, Error>)
      requires Consistent(tables)
      modifies this
      ensures Consistent(tables) && Evolves(old(tables), tables)
      ensures result.Err? ==> tables == old(tables) && result.error != INCONSISTENT
      ensures result.Ok? <==>
                MayLose(old(tables), owner, execution, worker, generation, at, reasonBytes) && !NoCounterLeft(old(tables), execution, true)
      ensures result == Err(EXHAUSTED) <==>
                MayLose(old(tables), owner, execution, worker, generation, at, reasonBytes) && NoCounterLeft(old(tables), execution, true)
      ensures result.Ok? ==>
                && Rewrote(old(tables), tables, execution, result.value)
                && result.value == Rewritten(
                     old(tables).executions[execution], Uncertain(at, reasonBytes),
                     old(tables).executions[execution].cancellation)
    {
      hide Consistent, Evolves, RecordSound;
      Unchanged(tables);
      HotExecutionFinds(tables, execution);
      if at == 0 || reasonBytes == 0 || reasonBytes > MAX_UNCERTAINTY_REASON_BYTES { return Err(Invalid); }
      var write := tables;
      var record :- OwnedExecution(write, owner, execution);
      if record.phase.EvidenceOf().None? { return Err(Conflict); }
      var claim :- ExactClaim(record, worker, generation);
      ClaimRow(write, execution);
      var claims := RemoveRow(write.claims, ClaimKey(execution, claim), execution);
      if claims.Err? { assert false; }
      record := record.(phase := Uncertain(at, reasonBytes));
      record :- Bumped(record);
      ReleaseSucceeds(write, execution);
      var units :- ReleaseActive(write.global, write.peers, record.caller, false);
      if !RecordValid(record) { assert false; }
      write := write.(executions := write.executions[execution := record],
                      claims := claims.value,
                      terminal := write.terminal[Key(at, execution) := execution],
                      global := units.global, peers := units.peers);
      CommitPhase(tables, write, execution, record);
      tables := write;
      return Ok(record);
    }

    /** Gives the oldest available execution to a worker. */
    method ClaimDispatch(worker: WorkerId, claimedAt: u64, leaseExpiresAt: u64) returns (result: Result<ClaimOutcome, Error>)
      requires Consistent(tables)
      modifies this
      ensures Consistent(tables) && Evolves(old(tables), tables)
      ensures result.Err? ==> result.error != INCONSISTENT
      ensures result.Err? || result.value.Empty? ==> tables == old(tables)
      ensures result.Ok? && result.value.Empty? <==>
                claimedAt != 0 && claimedAt < leaseExpiresAt && old(tables).available == map[]
      ensures result == Err(Invalid) <==> claimedAt == 0 || leaseExpiresAt <= claimedAt
      ensures result == Err(EXHAUSTED) <==>
                && claimedAt != 0 && claimedAt < leaseExpiresAt
                && exists k :: k in Earliest(old(tables).available, 1) && NoCounterLeft(old(tables), k.execution, false)
      ensures result.Err? ==> result.error in {Invalid, EXHAUSTED}
      ensures result.Ok? && !result.value.Empty? ==>
                var e := result.value.record.execution;
                && Rewrote(old(tables), tables, e, result.value.record)
                && (result.value.ClaimedWork? <==> old(tables).executions[e].phase.DispatchAvailable?)
                && Queued(old(tables).executions[e].phase) && AcceptedFirst(old(tables), e)
                && KeyIn(Available, old(tables).executions[e]).Some?
                && (forall k :: k in old(tables).available && k.execution != e ==>
                      KeyBelow(AvailableKey(old(tables).executions[e]), k))
                && var claim := Claim(worker, result.value.record.revision, claimedAt, leaseExpiresAt);
                   result.value.record == Rewritten(
                     old(tables).executions[e],
                     if old(tables).executions[e].phase.DispatchAvailable? then DispatchClaimed(claim)
                     else CancellationRequested(Some(claim), None),
                     old(tables).executions[e].cancellation)
    {
      hide Consistent, Evolves, RecordSound;
      Unchanged(tables);
      if claimedAt == 0 || leaseExpiresAt <= claimedAt { return Err(Invalid); }
      var write := tables;
      if write.available == map[] { return Ok(Empty); }
      var key := First(write.available);
      RowOwner(write, key, Available);
      var execution := write.available[key];
      HotExecutionFinds(write, execution);
      var record := write.executions[execution];
      if AvailableKey(record) != key { assert false; }
      var cancellationOnly := record.phase == CancellationRequested(None, None);
      if !record.phase.DispatchAvailable? && !cancellationOnly { assert false; }
      if record.revision == U64_MAX { return Err(EXHAUSTED); }
      LeastKeyIsFirst(write, execution);
      var claim := Claim(worker, record.revision + 1, claimedAt, leaseExpiresAt);
      record := record.(phase := if cancellationOnly then CancellationRequested(Some(claim), None) else DispatchClaimed(claim),
                        revision := claim.generation);
      if !RecordValid(record) { assert false; }
      write := write.(executions := write.executions[execution := record],
                      available := write.available - {key},
                      claims := write.claims[ClaimKey(execution, claim) := execution]);
      CommitPhase(tables, write, execution, record);
      tables := write;
      return Ok(if cancellationOnly then ClaimedCancellation(record) else ClaimedWork(record));
    }

    /** Makes a cancellation request durable; the first request of an execution is the only one. */
    method RequestCancellation(owner: CallerId, request: CancellationRequest, requestedAt: u64)
      returns (result: Result<Record, Error>)
      requires Consistent(tables)
      modifies this
      ensures Consistent(tables) && Evolves(old(tables), tables)
      ensures result.Err? ==> tables == old(tables) && result.error != INCONSISTENT
      ensures result.Ok? <==>
                && request.sequence != 0 && 0 < request.reasonBytes <= 512 && requestedAt != 0
                && Owns(old(tables), owner, request.execution)
                && MayCancel(old(tables).executions[request.execution], request)
      ensures result.Ok? ==>
                && Owns(old(tables), owner, request.execution)
                && var before := old(tables).executions[request.execution];
                   if before.cancellation.Some? then
                     tables == old(tables) && result.value == before && before.cancellation.value.request == request
                   else
                     && Rewrote(old(tables), tables, request.execution, result.value)
                     && result.value == Rewritten(
                          before, Cancelled(before.phase), Some(Cancellation(request, requestedAt, None, None)))
                     && CancelledWell(before, tables, request.execution)
    {
      hide Consistent, Evolves, RecordSound, CancelledWell;
      Unchanged(tables);
      HotExecutionFinds(tables, request.execution);
      if request.sequence == 0 || request.reasonBytes == 0 || request.reasonBytes > 512 || requestedAt == 0 {
        return Err(Invalid);
      }
      var write := tables;
      var record :- OwnedExecution(write, owner, request.execution);
      if record.cancellation.Some? {
        if record.cancellation.value.request == request { return Ok(record); }
        return Err(Conflict);
      }
      match record.phase {
        case DispatchClaimed(held) =>
          ClaimRow(write, request.execution);
          var claims := RemoveRow(write.claims, ClaimKey(request.execution, held), request.execution);
          if claims.Err? { assert false; }
          write := write.(claims := claims.value,
                          available := write.available[AvailableKey(record) := request.execution]);
        case CancellationRequested(_, _) => assert false;
        case Entered(_, _) => ClaimRow(write, request.execution);
        case DispatchAvailable(_) => SettledOrQueuedRow(write, request.execution);
        case _ => SettledOrQueuedRow(write, request.execution);
      }
      record := record.(phase := Cancelled(record.phase), cancellation := Some(Cancellation(request, requestedAt, None, None)));
      record :- Bumped(record);
      if !RecordValid(record) { assert false; }
      write := write.(executions := write.executions[request.execution := record]);
      CommitPhase(tables, write, request.execution, record);
      CancellationStands(tables.executions[request.execution], write, request.execution);
      tables := write;
      return Ok(record);
    }

    /** Makes the acknowledgement of a cancellation durable, once. */
    method AcknowledgeCancellation(owner: CallerId, acknowledgement: Acknowledgement, valid: bool, at: u64)
      returns (result: Result<Record, Error>)
      requires Consistent(tables)
      modifies this
      ensures Consistent(tables) && Evolves(old(tables), tables)
      ensures result.Err? ==> tables == old(tables) && result.error != INCONSISTENT
      ensures result.Ok? <==>
                && valid && at != 0 && Owns(old(tables), owner, acknowledgement.execution)
                && MayAcknowledge(old(tables).executions[acknowledgement.execution], acknowledgement)
      ensures result.Ok? ==>
                && Owns(old(tables), owner, acknowledgement.execution)
                && var before := old(tables).executions[acknowledgement.execution];
                && before.cancellation.Some?
                && before.cancellation.value.request.requestId == acknowledgement.requestId
                && if before.cancellation.value.acknowledgement.Some? then
                     && tables == old(tables) && result.value == before
                     && before.cancellation.value.acknowledgement.value == acknowledgement
                   else
                     && Rewrote(old(tables), tables, acknowledgement.execution, result.value)
                     && result.value == Rewritten(
                          before, before.phase,
                          Some(before.cancellation.value.(acknowledgement := Some(acknowledgement), acknowledgedAt := Some(at))))
    {
      hide Consistent, Evolves, RecordSound;
      Unchanged(tables);
      HotExecutionFinds(tables, acknowledgement.execution);
      if !valid || at == 0 { return Err(Invalid); }
      var write := tables;
      var record :- OwnedExecution(write, owner, acknowledgement.execution);
      if record.cancellation.None? { return Err(Conflict); }
      var cancellation := record.cancellation.value;
      if cancellation.request.requestId != acknowledgement.requestId { return Err(Conflict); }
      if cancellation.acknowledgement.Some? {
        if cancellation.acknowledgement.value == acknowledgement { return Ok(record); }
        return Err(Conflict);
      }
      if record.phase.ClaimOf().Some? {
        ClaimRow(write, acknowledgement.execution);
      } else {
        SettledOrQueuedRow(write, acknowledgement.execution);
      }
      record := record.(cancellation := Some(cancellation.(acknowledgement := Some(acknowledgement), acknowledgedAt := Some(at))));
      record :- Bumped(record);
      if !RecordValid(record) { assert false; }
      write := write.(executions := write.executions[acknowledgement.execution := record]);
      CommitPhase(tables, write, acknowledgement.execution, record);
      tables := write;
      return Ok(record);
    }

    /** Appends one observation to the log of a hot execution. Appending the same document again
        changes nothing; a terminal one also settles the execution. */
    method AppendObservation(owner: CallerId, execution: ExecutionId, o: Observation, resourcesReady: bool)
      returns (result: Result<AppendOutcome, Error>)
      requires Consistent(tables)
      modifies this
      ensures Consistent(tables) && Evolves(old(tables), tables)
      ensures result.Err? ==> tables == old(tables) && result.error != INCONSISTENT
      ensures Repeats(old(tables), owner, execution, o) ==> result == RepeatAnswer(old(tables), owner, execution, o)
      ensures result.Ok? && result.value.AppendReplayed? ==> Repeats(old(tables), owner, execution, o) && tables == old(tables)
      ensures result.Ok? && result.value.AppendedNow? <==>
                Continues(old(tables), owner, execution, o, resourcesReady) && !NoCounterLeft(old(tables), execution, o.event.Final?)
      ensures result == Err(EXHAUSTED) <==>
                Continues(old(tables), owner, execution, o, resourcesReady) && NoCounterLeft(old(tables), execution, o.event.Final?)
      ensures result.Ok? && result.value.AppendedNow? ==>
                Wrote(old(tables), tables, execution, o, result.value.record)
    {
      hide Consistent, Evolves, RecordSound, HistoryTakes, Extended;
      Unchanged(tables);
      HotExecutionFinds(tables, execution);
      if execution in tables.executions {
        SoundHistory(tables, execution);
        MayAppendIsRoom(tables.executions[execution], o);
      }
      if !ObservationValid(o) || o.execution != execution { return Err(Invalid); }
      var record :- OwnedExecution(tables, owner, execution);
      if o.sequence <= record.lastSequence {
        LogRow(tables, execution, o.sequence);
        if Key(o.sequence, execution) !in tables.observations { assert false; }
        if tables.observations[Key(o.sequence, execution)] == o { return Ok(AppendReplayed(record)); }
        return Err(Conflict);
      }
      if o.sequence != record.lastSequence + 1 { return Err(InvalidCursor); }
      if o.sequence > record.request.limits.observations
         || (o.sequence == record.request.limits.observations && !o.event.Final?) {
        return Err(Bounds);
      }
      if !PhaseAccepts(record.phase, o.event.Final?) { return Err(Conflict); }
      if o.event.Output? {
        if o.event.size.None? { return Err(Bounds); }
        if record.accounting.artifactBytes + o.event.size.value > record.request.limits.artifactBytes { return Err(Bounds); }
        if record.accounting.outputs >= MAX_OUTPUTS { return Err(Bounds); }
      }
      NextRowIsFree(tables, execution, o.sequence);
      if Key(o.sequence, execution) in tables.observations { assert false; }
      if o.event.Final? && o.event.usage.Some? && !UsageFits(record, o.event.usage.value, record.accounting.artifactBytes) {
        return Err(Invalid);
      }
      if o.event.Final? && !resourcesReady { return Err(Busy); }
      var written: Result<Tables, Error>;
      if o.event.Final? {
        written := WriteFinal(tables, record, o);
      } else {
        written := WriteProgress(tables, record, o);
      }
      if written.Err? { return Err(written.error); }
      AppendedIsExtended(record, o);
      tables := written.value;
      return Ok(AppendedNow(tables.executions[execution]));
    }

    /** The counters once this record has settled, if it had not. */
    static method SettleUnits(t: Tables, before: Record) returns (result: Result<Counters, Error>)
      requires Consistent(t) && before.execution in t.executions && t.executions[before.execution] == before
      ensures result.Ok? <==> !Full(t, before.(revision := 0), true)
      ensures result.Err? ==> result.error == EXHAUSTED
      ensures result.Ok? ==> GivenBack(t, t.(global := result.value.global, peers := result.value.peers), before)
    {
      hide Consistent;
      if before.phase.IsActive() {
        ReleaseSucceeds(t, before.execution);
        result := ReleaseActive(t.global, t.peers, before.caller, before.phase.IsPreEntry());
      } else {
        result := Ok(Counters(t.global, t.peers));
      }
    }

    /** The writes of a terminal append in one transaction: the observation row, the record, its move
        to the terminal index and the released accounting units. */
    static method WriteFinal(t: Tables, before: Record, o: Observation) returns (result: Result<Tables, Error>)
      requires Consistent(t) && before.execution in t.executions && t.executions[before.execution] == before
      requires RecordValid(before) && MayAppend(before, o) && o.event.Final?
      ensures result.Ok? ==>
                && Consistent(result.value) && Evolves(t, result.value)
                && Rewrote(t, result.value, before.execution, Appended(before, o))
      ensures result.Ok? <==> !Full(t, before, o.event.Final?)
      ensures result.Err? ==> result.error == EXHAUSTED
    {
      hide Consistent, Evolves, RecordSound, RecordValid, MayAppend, Appended, TakeOut, Moved;
      var execution := before.execution;
      HotExecutionFinds(t, execution);
      SoundHistory(t, execution);
      assert !before.phase.Terminal? by { OnlyUnendedGrow(before, o); }
      TakeOutSucceeds(t, execution);
      var taken := TakeOut(Indexes(t.available, t.claims, t.terminal), before);
      if taken.Err? { assert false; }
      var units :- SettleUnits(t, before);
      if before.revision == U64_MAX { return Err(EXHAUSTED); }
      AppendIsSound(before, o);
      if !RecordValid(Appended(before, o)) { assert false; }
      var write := t.(
        executions := t.executions[execution := Appended(before, o)],
        observations := t.observations[Key(o.sequence, execution) := o],
        available := taken.value.available,
        claims := taken.value.claims,
        terminal := taken.value.terminal[Key(o.observedAt, execution) := execution],
        global := units.global, peers := units.peers);
      MoveCompleted(t.terminal, KeyIn(Settled, before), Key(o.observedAt, execution), execution);
      CommitAppend(t, write, execution, o);
      return Ok(write);
    }

    /** The writes of any other append: the observation row, its artifact row and the record. */
    static method WriteProgress(t: Tables, before: Record, o: Observation) returns (result: Result<Tables, Error>)
      requires Consistent(t) && before.execution in t.executions && t.executions[before.execution] == before
      requires RecordValid(before) && MayAppend(before, o) && !o.event.Final?
      ensures result.Ok? ==>
                && Consistent(result.value) && Evolves(t, result.value)
                && Rewrote(t, result.value, before.execution, Appended(before, o))
      ensures result.Ok? <==> !Full(t, before, o.event.Final?)
      ensures result.Err? ==> result.error == EXHAUSTED
    {
      hide Consistent, Evolves, RecordSound, RecordValid, MayAppend, Appended, Moved;
      var execution := before.execution;
      HotExecutionFinds(t, execution);
      SoundHistory(t, execution);
      if before.revision == U64_MAX { return Err(EXHAUSTED); }
      AppendIsSound(before, o);
      SamePlace(t, execution, Appended(before, o));
      if !RecordValid(Appended(before, o)) { assert false; }
      var write := t.(
        executions := t.executions[execution := Appended(before, o)],
        observations := t.observations[Key(o.sequence, execution) := o],
        artifacts := if o.event.Output? then t.artifacts[Key(o.sequence, execution) := o.event.artifact] else t.artifacts);
      CommitAppend(t, write, execution, o);
      return Ok(write);
    }

    /** One transaction, whatever its outcome. */
    method Apply(op: Op)
      requires Consistent(tables)
      modifies this
      ensures Consistent(tables) && Evolves(old(tables), tables)
    {
      hide *;
      match op {
        case OpenAdmission(open) => SetAdmissionOpen(open);
        case Configure(relationship) => var _ := ConfigureRelationship(relationship);
        case Publish(catalog) => var _ := PublishCatalog(catalog);
        case Submit(admission) => var _ := Admit(admission);
        case Dispatch(worker, claimedAt, lease) => var _ := ClaimDispatch(worker, claimedAt, lease);
        case Enter(entry) => var _ := MarkEntered(entry);
        case Release(owner, execution, worker, generation, at) => var _ := ReleaseClaim(owner, execution, worker, generation, at);
        case Extend(owner, execution, worker, generation, lease) => var _ := ExtendClaim(owner, execution, worker, generation, lease);
        case Lose(owner, execution, worker, generation, at, reason) =>
          var _ := MarkUncertain(owner, execution, worker, generation, at, reason);
        case Append(owner, execution, o, ready) => var _ := AppendObservation(owner, execution, o, ready);
        case Cancel(owner, request, at) => var _ := RequestCancellation(owner, request, at);
        case Acknowledge(owner, acknowledgement, valid, at) => var _ := AcknowledgeCancellation(owner, acknowledgement, valid, at);
        case ArchiveSettled(before, archivedAt, limit) => var _ := Archive(before, archivedAt, limit);
        case RecoverAfterRestart(at, count) => var _ := Recover(at, count);
      }
    }

    /** Any run: every index, row and counter still agrees with the records, every acceptance is
        permanent, histories only grew and nothing settled became active again. */
    method Run(ops: seq<Op>)
      requires Consistent(tables)
      modifies this
      ensures Consistent(tables) && Evolves(old(tables), tables)
      ensures ops == [] ==> tables == old(tables)
    {
      hide *;
      Unchanged(tables);
      for i := 0 to |ops|
        invariant Consistent(tables) && Evolves(old(tables), tables)
        invariant i == 0 ==> tables == old(tables)
      {
        ghost var before := tables;
        Apply(ops[i]);
        EvolvesThrough(old(tables), before, tables);
      }
    }
  }
}
