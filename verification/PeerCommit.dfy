/** Commit lemmas for the transactions that do more than change a phase: appending an observation,
    accepting a request and archiving a settled record. */
module PeerCommit {
  import opened Prelude
  import opened PeerTypes
  import opened PeerTables
  import opened PeerEvolution
  import opened PeerTransaction

  // ---- Appending ----

  /** Whether a phase takes an observation: any once entered or uncertain, only a terminal one
      while claimed or cancelled before entry, none while queued or finished. */
  predicate PhaseAccepts(phase: Phase, final: bool) {
    match phase
    case Entered(_, _) => true
    case Uncertain(_, _) => true
    case CancellationRequested(_, evidence) => evidence.Some? || final
    case DispatchClaimed(_) => final
    case DispatchAvailable(_) => false
    case Terminal(_, _) => false
  }

  predicate UsageFits(r: Record, usage: Usage, artifactBytes: u64) {
    && usage.otherDimensions
    && (usage.durationMs.Some? ==> usage.durationMs.value <= r.request.limits.durationMs)
    && (usage.costMicros.Some? ==> usage.costMicros.value <= r.request.limits.costMicros)
    && (usage.nestedArtifactBytes.Some? ==>
          artifactBytes + usage.nestedArtifactBytes.value <= r.request.limits.artifactBytes)
  }

  /** The observation continues the log within the accepted quotas. */
  predicate MayAppend(r: Record, o: Observation) {
    && ObservationValid(o) && o.execution == r.execution
    && o.sequence == r.lastSequence + 1
    && o.sequence <= r.request.limits.observations
    && (o.sequence == r.request.limits.observations ==> o.event.Final?)
    && PhaseAccepts(r.phase, o.event.Final?)
    && (o.event.Output? ==>
          && o.event.size.Some?
          && r.accounting.artifactBytes + o.event.size.value <= r.request.limits.artifactBytes
          && r.accounting.outputs < MAX_OUTPUTS)
    && (o.event.Final? && o.event.usage.Some? ==> UsageFits(r, o.event.usage.value, r.accounting.artifactBytes))
  }

  /** The same from the history's side: the document is the next one, the longer log stays within the
      accepted numbers of documents, outputs and bytes with room for a terminal document, the work has
      been entered or is being concluded, and reported usage is within the limits. */
  ghost predicate HistoryTakes(r: Record, o: Observation) {
    var longer := r.History() + [o];
    && o.sequence == |longer| && o.observedAt != 0 && o.execution == r.execution
    && |longer| <= r.request.limits.observations
    && (!o.event.Final? ==> |longer| < r.request.limits.observations)
    && !r.phase.Terminal? && !r.phase.DispatchAvailable?
    && (o.event.Final? || r.phase.EvidenceOf().Some? || r.phase.Uncertain?)
    && (o.event.Output? ==>
          && o.event.size.Some? && |Outputs(longer)| <= 256
          && r.request.inputBytes + OutputBytes(longer) <= r.request.limits.artifactBytes)
    && (o.event.Final? && o.event.usage.Some? ==>
          && var usage := o.event.usage.value;
          && usage.otherDimensions
          && (usage.durationMs.Some? ==> usage.durationMs.value <= r.request.limits.durationMs)
          && (usage.costMicros.Some? ==> usage.costMicros.value <= r.request.limits.costMicros)
          && (usage.nestedArtifactBytes.Some? ==>
                r.request.inputBytes + OutputBytes(r.History()) + usage.nestedArtifactBytes.value <= r.request.limits.artifactBytes))
  }

  lemma MayAppendIsRoom(r: Record, o: Observation)
    requires RecordSound(r)
    ensures MayAppend(r, o) <==> HistoryTakes(r, o)
  {
    AppendedLog(r.History(), o);
    hide Outputs, OutputBytes, LogWellFormed, ChargedAsReported;
  }

  function Appended(r: Record, o: Observation): Record
    requires RecordValid(r) && MayAppend(r, o)
  {
    r.(phase := if o.event.Final? then Terminal(o.sequence, o.observedAt) else r.phase,
       lastSequence := o.sequence,
       accounting := Accounting(
         r.accounting.outputs + (if o.event.Output? then 1 else 0),
         r.accounting.observations + 1,
         r.accounting.artifactBytes + EventBytes(o.event),
         if o.event.Final? && o.event.usage.Some? then o.event.usage.value.durationMs else r.accounting.durationMs,
         if o.event.Final? && o.event.usage.Some? then o.event.usage.value.costMicros else r.accounting.costMicros),
       digest := Link(r.digest, o),
       revision := if r.revision == U64_MAX then U64_MAX else r.revision + 1)
  }

  lemma AppendedLog(log: seq<Observation>, o: Observation)
    ensures OutputBytes(log + [o]) == OutputBytes(log) + EventBytes(o.event)
    ensures Outputs(log + [o]) == Outputs(log) + (if o.event.Output? then [o] else [])
  {
    assert (log + [o])[..|log + [o]| - 1] == log;
  }

  lemma AppendIsSound(r: Record, o: Observation)
    requires RecordSound(r) && MayAppend(r, o) && r.revision < U64_MAX
    ensures RecordSound(Appended(r, o)) && RecordAdvances(r, Appended(r, o))
    ensures RecordValid(Appended(r, o)) && SameAcceptance(r, Appended(r, o)) && !r.phase.Terminal?
    ensures if o.event.Final? then Appended(r, o).phase == Terminal(o.sequence, o.observedAt) else Appended(r, o).phase == r.phase
  {
    hide Outputs, OutputBytes, LogWellFormed, UsageFits;
    var b := Appended(r, o);
    assert b.History() == r.History() + [o];
    AppendedLog(r.History(), o);
    assert LogWellFormed(b.History(), b.execution) by { LongerLogIsWellFormed(r.History(), r.execution, o); }
    hide Log;
    assert ChargedAsReported(b) by { LongerLogIsCharged(r, o); }
  }

  lemma LongerLogIsCharged(r: Record, o: Observation)
    requires RecordSound(r) && MayAppend(r, o) && r.revision < U64_MAX
    ensures ChargedAsReported(Appended(r, o))
  {
    hide Outputs, OutputBytes, LogWellFormed;
    assert Appended(r, o).History() == r.History() + [o];
  }

  lemma LongerLogIsWellFormed(log: seq<Observation>, e: ExecutionId, o: Observation)
    requires LogWellFormed(log, e) && !Ended(log)
    requires ObservationValid(o) && o.execution == e && o.sequence == |log| + 1 && (o.event.Output? ==> o.event.size.Some?)
    ensures LogWellFormed(log + [o], e)
  {
  }

  lemma AppendKeepsArtifacts(artifacts: map<Key, nat>, observations: map<Key, Observation>, k: Key, o: Observation)
    requires ArtifactsAgree(artifacts, observations) && k !in observations
    ensures ArtifactsAgree(if o.event.Output? then artifacts[k := o.event.artifact] else artifacts, observations[k := o])
  {
  }

  lemma CommitAppend(t: Tables, u: Tables, e: ExecutionId, o: Observation)
    requires Consistent(t) && e in t.executions
    requires RecordSound(t.executions[e]) && t.executions[e].execution == e && MayAppend(t.executions[e], o)
    requires RecordValid(t.executions[e]) && |t.executions[e].History()| == t.executions[e].lastSequence
    requires t.executions[e].revision < U64_MAX
    requires u.executions == t.executions[e := Appended(t.executions[e], o)] && SameElsewhere(t, u)
    requires u.observations == t.observations[Key(o.sequence, e) := o]
    requires u.artifacts == if o.event.Output? then t.artifacts[Key(o.sequence, e) := o.event.artifact] else t.artifacts
    requires Reindexed(t, u, t.executions[e], Appended(t.executions[e], o))
    requires Recounted(t, u, t.executions[e], Appended(t.executions[e], o))
    ensures Consistent(u) && Evolves(t, u)
  {
    hide PrimaryAgrees, RequestsAgree, DocumentsSound, IndexesAgree, RowsAgree, ArtifactsAgree, CountersAgree, RecordSound, Evolves;
    var r := Appended(t.executions[e], o);
    AppendIsSound(t.executions[e], o);
    AppendKeepsRows(t.observations, t.executions, e, r, o);
    AppendKeepsArtifacts(t.artifacts, t.observations, Key(o.sequence, e), o);
    ReplaceKeepsConsistent(t, u, e, r);
    ReplaceEvolves(t, u, e, r);
  }

  lemma SoundRecord(t: Tables, e: ExecutionId)
    requires DocumentsSound(t) && e in t.executions
    ensures RecordSound(t.executions[e])
    ensures |t.executions[e].History()| == t.executions[e].lastSequence
    ensures LogWellFormed(t.executions[e].History(), t.executions[e].execution)
  {
  }

  lemma SoundHistory(t: Tables, e: ExecutionId)
    requires Consistent(t) && e in t.executions
    ensures RecordSound(t.executions[e]) && |t.executions[e].History()| == t.executions[e].lastSequence
  {
    hide PrimaryAgrees, RequestsAgree, DocumentsSound, IndexesAgree, RowsAgree, ArtifactsAgree, CountersAgree, RecordSound;
    SoundRecord(t, e);
  }

  /** A record whose index keys do not change stays in its row. */
  lemma SamePlace(t: Tables, e: ExecutionId, r: Record)
    requires Consistent(t) && e in t.executions && r.execution == t.executions[e].execution
    requires r.phase == t.executions[e].phase && r.acceptanceSequence == t.executions[e].acceptanceSequence
    ensures Reindexed(t, t, t.executions[e], r)
  {
    hide Consistent;
    HotExecutionFinds(t, e);
    if t.executions[e].phase.ClaimOf().Some? {
      ClaimRow(t, e);
    } else {
      SettledOrQueuedRow(t, e);
    }
  }

  /** The row a new observation would take is free. */
  lemma NextRowIsFree(t: Tables, e: ExecutionId, sequence: u64)
    requires Consistent(t) && e in t.executions && sequence > t.executions[e].lastSequence
    ensures Key(sequence, e) !in t.observations
  {
    hide PrimaryAgrees, RequestsAgree, DocumentsSound, IndexesAgree, ArtifactsAgree, CountersAgree, RecordSound;
    SoundRecord(t, e);
  }

  /** Every numbered row of a hot log is present and holds the document of that number. */
  lemma LogRow(t: Tables, e: ExecutionId, sequence: u64)
    requires Consistent(t) && e in t.executions && 1 <= sequence <= t.executions[e].lastSequence
    ensures |t.executions[e].History()| == t.executions[e].lastSequence
    ensures Key(sequence, e) in t.observations
    ensures t.observations[Key(sequence, e)] == t.executions[e].History()[sequence - 1]
    ensures t.observations[Key(sequence, e)].execution == t.executions[e].execution
    ensures t.observations[Key(sequence, e)].sequence == sequence
  {
    hide PrimaryAgrees, RequestsAgree, DocumentsSound, IndexesAgree, ArtifactsAgree, CountersAgree, RecordSound;
    SoundRecord(t, e);
    assert Key(sequence, e) in t.observations;
  }

  // ---- Accepting ----

  /** A freshly accepted record: queued, no history, inputs already charged. */
  predicate Fresh(r: Record) {
    && r.phase.DispatchAvailable? && r.cancellation.None?
    && r.lastSequence == 0 && r.digest == Genesis
    && r.accounting == Accounting(0, 0, r.request.inputBytes, None, None)
  }

  lemma FreshIsSound(r: Record)
    requires Fresh(r) && RecordValid(r)
    ensures RecordSound(r)
  {
    assert r.History() == [];
  }

  ghost predicate Accepted(t: Tables, u: Tables, r: Record) {
    var e := r.execution;
    && u.executions == t.executions[e := r]
    && u.tombstones == t.tombstones
    && u.locations == t.locations[e := HotLocation]
    && u.byRequest == t.byRequest[HotRequestKey(r) := e]
    && u.available == t.available[AvailableKey(r) := e]
    && u.claims == t.claims && u.terminal == t.terminal
    && u.observations == t.observations && u.artifacts == t.artifacts
    && u.relationships == t.relationships && u.catalogs == t.catalogs
  }

  ghost predicate CountedIn(t: Tables, u: Tables, r: Record) {
    && u.global.active == t.global.active + 1
    && u.global.dispatchQueued == t.global.dispatchQueued + 1
    && u.global.hotTerminal == t.global.hotTerminal
    && u.global.tombstones == t.global.tombstones
    && u.global.nextSequence == t.global.nextSequence + 1
    && u.global.admissionOpen == t.global.admissionOpen
    && u.global.archiveGeneration == t.global.archiveGeneration
    && u.global.lastArchivedAt == t.global.lastArchivedAt
    && PeerActive(u.peers, r.caller) == PeerActive(t.peers, r.caller) + 1
    && (forall c :: c != r.caller ==> PeerActive(u.peers, c) == PeerActive(t.peers, c))
    && (forall c :: PeerAccountingOf(u.peers, c).revision == PeerAccountingOf(t.peers, c).revision + Unit(c == r.caller))
  }

  lemma NotYetCounted(executions: map<ExecutionId, Record>, e: ExecutionId)
    requires e !in executions
    ensures e !in ActiveSet(executions) && e !in PreEntrySet(executions) && e !in SettledSet(executions)
    ensures forall caller :: e !in ActiveSetOf(executions, caller)
  {
  }

  lemma AcceptKeepsCounters(t: Tables, u: Tables, r: Record)
    requires CountersAgree(t) && r.execution !in t.executions && r.phase.DispatchAvailable?
    requires u.executions == t.executions[r.execution := r] && u.tombstones == t.tombstones
    requires CountedIn(t, u, r)
    ensures CountersAgree(u)
  {
    hide ActiveSet, PreEntrySet, SettledSet, ActiveSetOf, Adjusted, PeerActive;
    var e := r.execution;
    SetsAfterUpdate(t.executions, e, r);
    NotYetCounted(t.executions, e);
    AdjustedSize(ActiveSet(t.executions), e, true);
    AdjustedSize(PreEntrySet(t.executions), e, true);
    AdjustedSize(SettledSet(t.executions), e, false);
    forall caller
      ensures PeerActive(u.peers, caller) == |ActiveSetOf(u.executions, caller)|
    {
      AdjustedSize(ActiveSetOf(t.executions, caller), e, r.caller == caller);
      assert PeerActive(t.peers, caller) == |ActiveSetOf(t.executions, caller)|;
    }
  }

  lemma AddKeepsRows(rows: map<Key, ExecutionId>, keys: map<ExecutionId, Option<Key>>, e: ExecutionId, to: Option<Key>)
    requires RowsMatch(rows, keys) && e !in keys
    requires to.Some? ==> to.value.execution == e
    ensures RowsMatch(Moved(rows, None, to, e), keys[e := to])
  {
  }

  lemma AcceptKeepsIndexes(t: Tables, u: Tables, r: Record)
    requires IndexesAgree(t) && r.execution !in t.executions && r.phase.DispatchAvailable?
    requires Accepted(t, u, r)
    ensures IndexesAgree(u)
  {
    var e := r.execution;
    forall index
      ensures IndexAgrees(Rows(u, index), u.executions, index)
    {
      assert IndexAgrees(Rows(t, index), t.executions, index);
      AddKeepsRows(Rows(t, index), KeysOf(t.executions, index), e, KeyIn(index, r));
      assert KeysOf(u.executions, index) == KeysOf(t.executions, index)[e := KeyIn(index, r)];
      match index case Available => case Claims => case Settled =>
    }
  }

  lemma AcceptKeepsPrimary(t: Tables, u: Tables, r: Record)
    requires PrimaryAgrees(t) && r.execution !in Known(t) && Accepted(t, u, r)
    ensures PrimaryAgrees(u)
  {
  }

  lemma AcceptKeepsRequests(t: Tables, u: Tables, r: Record)
    requires RequestsAgree(t) && r.execution !in Known(t) && HotRequestKey(r) !in t.byRequest
    requires Accepted(t, u, r)
    ensures RequestsAgree(u)
  {
  }

  lemma AcceptEvolves(t: Tables, u: Tables, r: Record)
    requires PrimaryAgrees(t) && r.execution !in Known(t) && HotRequestKey(r) !in t.byRequest
    requires Accepted(t, u, r) && CountedIn(t, u, r)
    ensures Evolves(t, u)
  {
    forall x | x in Known(t)
      ensures ExecutionAdvances(t, u, x)
    {
      if x in t.executions {
        assert RecordAdvances(t.executions[x], u.executions[x]);
      }
    }
  }

  lemma AcceptKeepsLogs(t: Tables, u: Tables, r: Record)
    requires RowsAgree(t.observations, t.executions) && r.execution !in t.executions && r.digest == Genesis
    requires Accepted(t, u, r)
    ensures RowsAgree(u.observations, u.executions)
  {
    assert r.History() == [];
  }

  lemma AcceptKeepsDocuments(t: Tables, u: Tables, r: Record)
    requires DocumentsSound(t) && RecordSound(r)
    requires Accepted(t, u, r) && CountedIn(t, u, r)
    ensures DocumentsSound(u)
  {
    hide RecordSound, TombstoneSound;
  }

  lemma CommitAccept(t: Tables, u: Tables, r: Record)
    requires Consistent(t) && r.execution !in Known(t) && HotRequestKey(r) !in t.byRequest
    requires Fresh(r) && RecordValid(r)
    requires Accepted(t, u, r) && CountedIn(t, u, r)
    ensures Consistent(u) && Evolves(t, u)
  {
    hide PrimaryAgrees, RequestsAgree, DocumentsSound, IndexesAgree, RowsAgree, ArtifactsAgree, CountersAgree, RecordSound, Evolves;
    FreshIsSound(r);
    AcceptKeepsDocuments(t, u, r);
    AcceptKeepsCounters(t, u, r);
    AcceptKeepsIndexes(t, u, r);
    AcceptKeepsPrimary(t, u, r);
    AcceptKeepsRequests(t, u, r);
    AcceptKeepsLogs(t, u, r);
    AcceptEvolves(t, u, r);
  }

  // ---- Archiving ----

  /** The compact form of a settled record: identity, outcome, outputs and the whole digest. */
  function TombstoneOf(r: Record, archivedAt: u64): Tombstone {
    Tombstone(
      r.caller, r.relationshipGeneration, r.request.requestId, r.request.digest, r.execution,
      r.acceptanceSequence, r.acceptedAt,
      if r.phase.Terminal? && r.History() != [] then Finished(r.History()[|r.History()| - 1])
      else if r.phase.Uncertain? then Unresolved(r.phase.uncertainAt, r.phase.reasonBytes)
      else Unresolved(0, 0),
      r.cancellation, r.lastSequence, r.digest, r.accounting, Outputs(r.History()), archivedAt)
  }

  /** What a tombstone keeps of the record it stands for: who asked for what, when and in which order,
      how it ended, its cancellation, its whole log by digest, its outputs and its accounting. */
  ghost predicate Keeps(r: Record, d: Tombstone, archivedAt: u64) {
    && d.caller == r.caller && d.relationshipGeneration == r.relationshipGeneration
    && d.requestId == r.request.requestId && d.requestDigest == r.request.digest && d.execution == r.execution
    && d.acceptanceSequence == r.acceptanceSequence && d.acceptedAt == r.acceptedAt
    && d.cancellation == r.cancellation && d.accounting == r.accounting
    && d.digest == r.digest && d.lastSequence == r.lastSequence && d.outputs == Outputs(r.History())
    && (r.phase.Terminal? && r.History() != [] ==> d.disposition == Finished(r.History()[|r.History()| - 1]))
    && (r.phase.Uncertain? ==> d.disposition == Unresolved(r.phase.uncertainAt, r.phase.reasonBytes))
    && d.archivedAt == archivedAt
  }

  lemma TombstoneKeeps(r: Record, archivedAt: u64)
    ensures Keeps(r, TombstoneOf(r, archivedAt), archivedAt)
  {
  }

  lemma TombstoneIsSound(r: Record, archivedAt: u64)
    requires RecordSound(r) && !r.phase.IsActive() && TombstoneValid(TombstoneOf(r, archivedAt))
    ensures TombstoneSound(TombstoneOf(r, archivedAt)) && ArchivedFrom(r, TombstoneOf(r, archivedAt))
  {
  }

  function RowsOf<T>(rows: map<Key, T>, e: ExecutionId): set<Key> {
    set k | k in rows && k.execution == e
  }

  ghost predicate Compacted(t: Tables, u: Tables, e: ExecutionId, d: Tombstone)
    requires e in t.executions
  {
    && u.executions == t.executions - {e}
    && u.tombstones == t.tombstones[e := d]
    && u.locations == t.locations[e := ArchivedLocation]
    && u.byRequest == t.byRequest
    && u.available == t.available && u.claims == t.claims
    && u.terminal == t.terminal - {Key(SettledAt(t.executions[e]), e)}
    && u.observations == t.observations - RowsOf(t.observations, e)
    && u.artifacts == t.artifacts - RowsOf(t.artifacts, e)
    && u.relationships == t.relationships && u.catalogs == t.catalogs && u.peers == t.peers
    && u.global == t.global.(hotTerminal := u.global.hotTerminal, tombstones := u.global.tombstones)
    && u.global.hotTerminal == t.global.hotTerminal - 1
    && u.global.tombstones == t.global.tombstones + 1
  }

  lemma SetsAfterRemoval(executions: map<ExecutionId, Record>, e: ExecutionId)
    requires e in executions && !executions[e].phase.IsActive()
    ensures ActiveSet(executions - {e}) == ActiveSet(executions)
    ensures PreEntrySet(executions - {e}) == PreEntrySet(executions)
    ensures SettledSet(executions - {e}) == SettledSet(executions) - {e} && e in SettledSet(executions)
    ensures forall caller :: ActiveSetOf(executions - {e}, caller) == ActiveSetOf(executions, caller)
  {
  }

  lemma ArchiveKeepsCounters(t: Tables, u: Tables, e: ExecutionId, d: Tombstone)
    requires CountersAgree(t) && e in t.executions && e !in t.tombstones
    requires !t.executions[e].phase.IsActive() && Compacted(t, u, e, d)
    ensures CountersAgree(u)
  {
    hide ActiveSet, PreEntrySet, SettledSet, ActiveSetOf, PeerActive, RowsOf;
    SetsAfterRemoval(t.executions, e);
    forall caller
      ensures PeerActive(u.peers, caller) == |ActiveSetOf(u.executions, caller)|
    {
      assert PeerActive(t.peers, caller) == |ActiveSetOf(t.executions, caller)|;
    }
  }

  lemma RemoveKeepsRows(rows: map<Key, ExecutionId>, keys: map<ExecutionId, Option<Key>>, e: ExecutionId)
    requires RowsMatch(rows, keys) && e in keys
    ensures RowsMatch(Moved(rows, keys[e], None, e), keys - {e})
  {
  }

  lemma ArchiveKeepsIndexes(t: Tables, u: Tables, e: ExecutionId, d: Tombstone)
    requires IndexesAgree(t) && e in t.executions && t.executions[e].execution == e
    requires !t.executions[e].phase.IsActive() && Compacted(t, u, e, d)
    ensures IndexesAgree(u)
  {
    forall index
      ensures IndexAgrees(Rows(u, index), u.executions, index)
    {
      assert IndexAgrees(Rows(t, index), t.executions, index);
      RemoveKeepsRows(Rows(t, index), KeysOf(t.executions, index), e);
      assert KeysOf(u.executions, index) == KeysOf(t.executions, index) - {e};
      match index case Available => case Claims => case Settled =>
    }
  }

  lemma ArchiveKeepsPrimary(t: Tables, u: Tables, e: ExecutionId, d: Tombstone)
    requires PrimaryAgrees(t) && e in t.executions && d.execution == e && Compacted(t, u, e, d)
    ensures PrimaryAgrees(u)
  {
  }

  lemma ArchiveKeepsRequests(t: Tables, u: Tables, e: ExecutionId, d: Tombstone)
    requires PrimaryAgrees(t) && RequestsAgree(t) && e in t.executions && Compacted(t, u, e, d)
    requires ArchivedRequestKey(d) == HotRequestKey(t.executions[e])
    ensures RequestsAgree(u)
  {
  }

  lemma ArchiveKeepsLogs(t: Tables, u: Tables, e: ExecutionId, d: Tombstone)
    requires RowsAgree(t.observations, t.executions) && ArtifactsAgree(t.artifacts, t.observations)
    requires e in t.executions && Compacted(t, u, e, d)
    ensures RowsAgree(u.observations, u.executions) && ArtifactsAgree(u.artifacts, u.observations)
  {
  }

  lemma ArchiveKeepsDocuments(t: Tables, u: Tables, e: ExecutionId, d: Tombstone)
    requires DocumentsSound(t) && e in t.executions && TombstoneSound(d) && Compacted(t, u, e, d)
    ensures DocumentsSound(u)
  {
    hide RecordSound, TombstoneSound;
  }

  lemma ArchiveEvolves(t: Tables, u: Tables, e: ExecutionId, d: Tombstone)
    requires PrimaryAgrees(t) && e in t.executions && ArchivedFrom(t.executions[e], d) && Compacted(t, u, e, d)
    ensures Evolves(t, u)
  {
    forall x | x in Known(t)
      ensures ExecutionAdvances(t, u, x)
    {
      if x in t.executions && x != e {
        assert RecordAdvances(t.executions[x], u.executions[x]);
      }
    }
  }

  lemma CommitArchive(t: Tables, u: Tables, e: ExecutionId, d: Tombstone)
    requires Consistent(t) && e in t.executions && t.executions[e].execution == e && e !in t.tombstones
    requires !t.executions[e].phase.IsActive()
    requires TombstoneSound(d) && ArchivedFrom(t.executions[e], d) && Compacted(t, u, e, d)
    ensures Consistent(u) && Evolves(t, u)
  {
    hide PrimaryAgrees, RequestsAgree, DocumentsSound, IndexesAgree, RowsAgree, ArtifactsAgree, CountersAgree, Evolves, TombstoneSound;
    ArchiveKeepsCounters(t, u, e, d);
    ArchiveKeepsIndexes(t, u, e, d);
    ArchiveKeepsPrimary(t, u, e, d);
    ArchiveKeepsRequests(t, u, e, d);
    ArchiveKeepsLogs(t, u, e, d);
    ArchiveKeepsDocuments(t, u, e, d);
    ArchiveEvolves(t, u, e, d);
  }

  lemma EvolvesThrough(t: Tables, u: Tables, v: Tables)
    requires Consistent(u) && Evolves(t, u) && Evolves(u, v)
    ensures Evolves(t, v)
  {
    hide Evolves, RequestsAgree, DocumentsSound, IndexesAgree, RowsAgree, ArtifactsAgree, CountersAgree;
    EvolvesTransitive(t, u, v);
  }

  // ---- Gates ----

  /** Only relationships, catalogs, the admission gate and archival stamps may differ. */
  ghost predicate OnlyGates(t: Tables, u: Tables) {
    && u == t.(relationships := u.relationships, catalogs := u.catalogs, global := u.global)
    && u.global == t.global.(admissionOpen := u.global.admissionOpen,
                             archiveGeneration := u.global.archiveGeneration, lastArchivedAt := u.global.lastArchivedAt)
  }

  lemma GateKeepsCore(t: Tables, u: Tables)
    requires OnlyGates(t, u) && PrimaryAgrees(t) && RequestsAgree(t)
    ensures PrimaryAgrees(u) && RequestsAgree(u)
  {
  }

  lemma GateKeepsIndexes(t: Tables, u: Tables)
    requires OnlyGates(t, u) && IndexesAgree(t) && CountersAgree(t)
    ensures IndexesAgree(u) && CountersAgree(u)
  {
    hide IndexAgrees, ActiveSet, PreEntrySet, SettledSet, ActiveSetOf, PeerActive;
    forall index
      ensures IndexAgrees(Rows(u, index), u.executions, index)
    {
      assert IndexAgrees(Rows(t, index), t.executions, index);
    }
  }

  lemma GateKeepsDocuments(t: Tables, u: Tables)
    requires OnlyGates(t, u) && DocumentsSound(t)
    requires GatesSound(u.relationships, u.catalogs)
    requires u.global.archiveGeneration == 0 <==> u.global.lastArchivedAt.None?
    ensures DocumentsSound(u)
  {
    hide RecordSound, TombstoneSound;
  }

  lemma GateEvolves(t: Tables, u: Tables)
    requires OnlyGates(t, u) && t.global.archiveGeneration <= u.global.archiveGeneration
    ensures Evolves(t, u)
  {
    forall e | e in Known(t)
      ensures ExecutionAdvances(t, u, e)
    {
      if e in t.executions {
        assert RecordAdvances(t.executions[e], u.executions[e]);
      }
    }
  }

  lemma GateKeepsConsistent(t: Tables, u: Tables)
    requires Consistent(t) && OnlyGates(t, u)
    requires GatesSound(u.relationships, u.catalogs)
    requires u.global.archiveGeneration == 0 <==> u.global.lastArchivedAt.None?
    requires t.global.archiveGeneration <= u.global.archiveGeneration
    ensures Consistent(u) && Evolves(t, u)
  {
    hide PrimaryAgrees, RequestsAgree, DocumentsSound, IndexesAgree, RowsAgree, ArtifactsAgree, CountersAgree, Evolves;
    GateKeepsCore(t, u);
    GateKeepsIndexes(t, u);
    GateKeepsDocuments(t, u);
    GateEvolves(t, u);
  }

  lemma GateRowsOwned(t: Tables)
    requires Consistent(t)
    ensures GatesSound(t.relationships, t.catalogs) && CountersReadable(t.global)
  {
    hide PrimaryAgrees, RequestsAgree, IndexesAgree, RowsAgree, ArtifactsAgree, CountersAgree, RecordSound, TombstoneSound;
  }
}
