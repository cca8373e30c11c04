/** Steps shared by the transactions of the serving-peer store. A transaction works on its own copy
    of the tables; a step that fails aborts it. */
module PeerTransaction {
  import opened Prelude
  import opened PeerTypes
  import opened PeerTables
  import opened PeerEvolution

  /** `Corruption(false)` reports tables that contradict each other; `Corruption(true)` a counter
      at the top of its machine range. */
  datatype Error =
    | Invalid
    | NotFound
    | Conflict
    | InvalidCursor
    | Bounds
    | Busy
    | Corruption(exhausted: bool)

  const INCONSISTENT: Error := Corruption(false)
  const EXHAUSTED: Error := Corruption(true)

  /** A hot record, refused when its location row or its document disagrees. */
  function HotExecution(t: Tables, execution: ExecutionId): Result<Option<Record>, Error> {
    if execution !in t.executions then Ok(None)
    else if !RecordValid(t.executions[execution]) then Err(INCONSISTENT)
    else if execution !in t.locations || t.locations[execution] != HotLocation then Err(INCONSISTENT)
    else Ok(Some(t.executions[execution]))
  }

  function OwnedExecution(t: Tables, owner: CallerId, execution: ExecutionId): Result<Record, Error> {
    match HotExecution(t, execution)
    case Err(error) => Err(error)
    case Ok(Some(record)) => if record.caller == owner then Ok(record) else Err(NotFound)
    case Ok(None) => Err(NotFound)
  }

  datatype Snapshot = Hot(record: Record) | Archived(tombstone: Tombstone)
  {
    function CallerOf(): CallerId { if Hot? then record.caller else tombstone.caller }
    function RequestIdOf(): RequestId { if Hot? then record.request.requestId else tombstone.requestId }
    function DigestOf(): DigestText { if Hot? then record.request.digest else tombstone.requestDigest }
    function ExecutionOf(): ExecutionId { if Hot? then record.execution else tombstone.execution }
    function LastSequence(): u64 { if Hot? then record.lastSequence else tombstone.lastSequence }
    function AcceptedAt(): u64 { if Hot? then record.acceptedAt else tombstone.acceptedAt }
  }

  /** The location row selects exactly one durable authority. */
  function ReadSnapshot(t: Tables, execution: ExecutionId): Result<Option<Snapshot>, Error> {
    if execution !in t.locations then
      if execution in t.executions || execution in t.tombstones then Err(INCONSISTENT) else Ok(None)
    else if t.locations[execution] == HotLocation then
      if execution in t.executions && RecordValid(t.executions[execution])
      then Ok(Some(Hot(t.executions[execution]))) else Err(INCONSISTENT)
    else
      if execution in t.tombstones then Ok(Some(Archived(t.tombstones[execution]))) else Err(INCONSISTENT)
  }

  /** The snapshot of a known execution of consistent tables. */
  function SnapshotOf(t: Tables, e: ExecutionId): Snapshot
    requires e in Known(t)
  {
    if e in t.executions then Hot(t.executions[e]) else Archived(t.tombstones[e])
  }

  lemma ReadSnapshotFinds(t: Tables, e: ExecutionId)
    requires Consistent(t)
    ensures ReadSnapshot(t, e) == Ok(if e in Known(t) then Some(SnapshotOf(t, e)) else None)
  {
    hide RequestsAgree, IndexesAgree, RowsAgree, ArtifactsAgree, CountersAgree, TombstoneSound;
    if e in t.executions {
      assert RecordSound(t.executions[e]);
    }
  }

  lemma HotExecutionFinds(t: Tables, e: ExecutionId)
    requires Consistent(t)
    ensures HotExecution(t, e) == Ok(if e in t.executions then Some(t.executions[e]) else None)
    ensures e in t.executions ==>
              t.executions[e].execution == e && RecordValid(t.executions[e]) && t.executions[e].phase.WellFormed()
              && CancellationTargets(t.executions[e].cancellation, e)
  {
    if e in t.executions {
      assert RecordSound(t.executions[e]);
    }
  }


  function Bumped(r: Record): Result<Record, Error> {
    if r.revision == U64_MAX then Err(EXHAUSTED) else Ok(r.(revision := r.revision + 1))
  }

  /** A record with new phase and cancellation facts, one revision later. */
  function Rewritten(r: Record, phase: Phase, cancellation: Option<Cancellation>): Record {
    r.(phase := phase, cancellation := cancellation,
       revision := if r.revision == U64_MAX then U64_MAX else r.revision + 1)
  }

  /** Removes an index row, refused when it is missing or names another execution. */
  function RemoveRow(rows: map<Key, ExecutionId>, key: Key, execution: ExecutionId): Result<map<Key, ExecutionId>, Error> {
    if key in rows && rows[key] == execution then Ok(rows - {key}) else Err(INCONSISTENT)
  }

  datatype Counters = Counters(global: GlobalAccounting, peers: map<CallerId, PeerAccounting>)

  function PeerAccountingOf(peers: map<CallerId, PeerAccounting>, caller: CallerId): PeerAccounting {
    if caller in peers then peers[caller] else PeerAccounting(0, 0)
  }

  /** Gives back one active unit, and one queued unit when the work never entered. */
  function ReleaseActive(global: GlobalAccounting, peers: map<CallerId, PeerAccounting>, caller: CallerId, decrementDispatch: bool)
    : Result<Counters, Error>
  {
    var peer := PeerAccountingOf(peers, caller);
    if global.active == 0 || (decrementDispatch && global.dispatchQueued == 0) || peer.active == 0 then
      Err(INCONSISTENT)
    else if global.hotTerminal == U64_MAX || peer.revision == U64_MAX then
      Err(EXHAUSTED)
    else
      Ok(Counters(
        global.(active := global.active - 1,
                dispatchQueued := global.dispatchQueued - (if decrementDispatch then 1 else 0),
                hotTerminal := global.hotTerminal + 1),
        peers[caller := PeerAccounting(peer.active - 1, peer.revision + 1)]))
  }

  /** A counter that a rewrite has to raise is at the top of its range: the revision of the record
      and, where an active record settles, the settled count and the revision of its caller. */
  predicate Full(t: Tables, r: Record, settles: bool) {
    || r.revision == U64_MAX
    || (settles && r.phase.IsActive()
        && (t.global.hotTerminal == U64_MAX || PeerAccountingOf(t.peers, r.caller).revision == U64_MAX))
  }

  /** The counters that only settling raises: by one when a record of this caller settles. */
  ghost predicate Raised(t: Tables, u: Tables, caller: CallerId, settled: bool) {
    && u.global.hotTerminal == t.global.hotTerminal + Unit(settled)
    && (forall c :: PeerAccountingOf(u.peers, c).revision
                    == PeerAccountingOf(t.peers, c).revision + Unit(settled && c == caller))
  }

  /** Consistent tables hold a unit for every active record, so release cannot underflow. */
  lemma ReleaseSucceeds(t: Tables, e: ExecutionId)
    requires Consistent(t) && e in t.executions && t.executions[e].phase.IsActive()
    ensures t.global.active > 0 && PeerActive(t.peers, t.executions[e].caller) > 0
    ensures t.executions[e].phase.IsPreEntry() ==> t.global.dispatchQueued > 0
  {
    hide PrimaryAgrees, RequestsAgree, DocumentsSound, IndexesAgree, RowsAgree, ArtifactsAgree;
    var caller := t.executions[e].caller;
    assert e in ActiveSet(t.executions);
    assert e in ActiveSetOf(t.executions, caller);
    assert PeerActive(t.peers, caller) == |ActiveSetOf(t.executions, caller)|;
    assert t.executions[e].phase.IsPreEntry() ==> e in PreEntrySet(t.executions);
  }

  /** The index row of a record stands where its phase says. */
  lemma IndexRow(t: Tables, e: ExecutionId, index: Index)
    requires Consistent(t) && e in t.executions && KeyIn(index, t.executions[e]).Some?
    ensures KeyIn(index, t.executions[e]).value in Rows(t, index)
    ensures Rows(t, index)[KeyIn(index, t.executions[e]).value] == e
  {
    assert IndexAgrees(Rows(t, index), t.executions, index);
    assert KeysOf(t.executions, index)[e] == KeyIn(index, t.executions[e]);
  }

  lemma ClaimRow(t: Tables, e: ExecutionId)
    requires Consistent(t) && e in t.executions && t.executions[e].phase.ClaimOf().Some?
    ensures ClaimKey(e, t.executions[e].phase.ClaimOf().value) in t.claims
    ensures t.claims[ClaimKey(e, t.executions[e].phase.ClaimOf().value)] == e
  {
    hide Consistent;
    HotExecutionFinds(t, e);
    IndexRow(t, e, Claims);
  }

  lemma SettledOrQueuedRow(t: Tables, e: ExecutionId)
    requires Consistent(t) && e in t.executions && t.executions[e].phase.ClaimOf().None?
    ensures t.executions[e].phase.IsActive() ==>
              AvailableKey(t.executions[e]) in t.available && t.available[AvailableKey(t.executions[e])] == e
    ensures !t.executions[e].phase.IsActive() ==>
              Key(SettledAt(t.executions[e]), e) in t.terminal && t.terminal[Key(SettledAt(t.executions[e]), e)] == e
  {
    hide Consistent;
    HotExecutionFinds(t, e);
    IndexRow(t, e, if t.executions[e].phase.IsActive() then Available else Settled);
  }

  datatype Indexes = Indexes(available: map<Key, ExecutionId>, claims: map<Key, ExecutionId>, terminal: map<Key, ExecutionId>)

  /** Removes a record from the one index that holds it, as terminal evidence requires. */
  function TakeOut(ix: Indexes, r: Record): Result<Indexes, Error> {
    if r.phase.ClaimOf().Some? then
      match RemoveRow(ix.claims, ClaimKey(r.execution, r.phase.ClaimOf().value), r.execution)
      case Ok(claims) => Ok(ix.(claims := claims))
      case Err(error) => Err(error)
    else if r.phase.IsPreEntry() then
      match RemoveRow(ix.available, AvailableKey(r), r.execution)
      case Ok(available) => Ok(ix.(available := available))
      case Err(error) => Err(error)
    else if r.phase.Uncertain? then
      match RemoveRow(ix.terminal, Key(r.phase.uncertainAt, r.execution), r.execution)
      case Ok(terminal) => Ok(ix.(terminal := terminal))
      case Err(error) => Err(error)
    else Ok(ix)
  }

  /** On consistent tables the row is always there, so terminal evidence never meets a missing
      dispatch, claim or terminal index row. */
  lemma TakeOutSucceeds(t: Tables, e: ExecutionId)
    requires Consistent(t) && e in t.executions && !t.executions[e].phase.Terminal?
    ensures TakeOut(Indexes(t.available, t.claims, t.terminal), t.executions[e]) == Ok(Indexes(
              Moved(t.available, KeyIn(Available, t.executions[e]), None, e),
              Moved(t.claims, KeyIn(Claims, t.executions[e]), None, e),
              Moved(t.terminal, KeyIn(Settled, t.executions[e]), None, e)))
  {
    hide Consistent;
    HotExecutionFinds(t, e);
    var r := t.executions[e];
    var index := if r.phase.ClaimOf().Some? then Claims else if r.phase.IsActive() then Available else Settled;
    assert KeyIn(index, r).Some?;
    IndexRow(t, e, index);
  }

  /** Every index row points at a hot record whose phase puts it there. */
  lemma RowOwner(t: Tables, key: Key, index: Index)
    requires Consistent(t) && key in Rows(t, index)
    ensures Rows(t, index)[key] == key.execution && key.execution in t.executions
    ensures KeyIn(index, t.executions[key.execution]) == Some(key)
  {
    assert IndexAgrees(Rows(t, index), t.executions, index);
  }

  // ---- Commit ----

  /** Which phase and cancellation facts may replace those of a record without new observations. */
  ghost predicate MayBecome(a: Record, phase: Phase, cancellation: Option<Cancellation>) {
    && phase.WellFormed()
    && (a.phase.Terminal? || phase.Terminal? ==> phase == a.phase)
    && (phase.IsActive() ==> a.phase.IsActive())
    && (phase.IsActive() && a.phase.EvidenceOf().Some? ==> phase.EvidenceOf() == a.phase.EvidenceOf())
    && (phase.IsPreEntry() ==> a.phase.IsPreEntry())
    && (phase.IsActive() ==> (phase.CancellationRequested? <==> cancellation.Some?))
    && CancellationAdvances(a.cancellation, cancellation)
    && CancellationTargets(cancellation, a.execution)
  }

  lemma PhaseChangeIsSound(a: Record, b: Record)
    requires RecordSound(a) && MayBecome(a, b.phase, b.cancellation)
    requires b == a.(phase := b.phase, cancellation := b.cancellation, revision := b.revision)
    requires a.revision <= b.revision
    ensures RecordSound(b) && RecordAdvances(a, b)
  {
  }

  /** The commit of every transaction that rewrites one record without appending to its history:
      indexes follow the phase, counters follow the phase, nothing else moves. */
  lemma CommitPhase(t: Tables, u: Tables, e: ExecutionId, r: Record)
    requires Consistent(t) && e in t.executions
    requires MayBecome(t.executions[e], r.phase, r.cancellation)
    requires t.executions[e].revision <= r.revision
    requires r == t.executions[e].(phase := r.phase, cancellation := r.cancellation, revision := r.revision)
    requires u.executions == t.executions[e := r] && SameElsewhere(t, u)
    requires u.observations == t.observations && u.artifacts == t.artifacts
    requires Reindexed(t, u, t.executions[e], r)
    requires Recounted(t, u, t.executions[e], r)
    ensures Consistent(u) && Evolves(t, u)
  {
    assert RecordSound(t.executions[e]);
    PhaseChangeIsSound(t.executions[e], r);
    SameHistoryKeepsRows(t.observations, t.executions, e, r);
    ReplaceKeepsConsistent(t, u, e, r);
    ReplaceEvolves(t, u, e, r);
  }
}
