/** The tables of the serving-peer store and the invariant that ties every index, row and counter
    to the primary records. One lemma, `ReplaceKeepsConsistent`, covers every transaction that
    rewrites a single hot record. */
module PeerTables {
  import opened Prelude
  import opened PeerTypes

  /** An index key: a big-endian number followed by a length-prefixed identity. */
  datatype Key = Key(number: u64, execution: ExecutionId)

  /** The byte order of two encoded keys: the number first, then the identity. */
  predicate KeyBelow(a: Key, b: Key) {
    a.number < b.number || (a.number == b.number && a.execution < b.execution)
  }

  datatype RequestKey = RequestKey(caller: CallerId, requestId: RequestId)

  datatype Location = HotLocation | ArchivedLocation

  datatype Relationship = Relationship(
    caller: CallerId, generation: u64, enabled: bool, expiresAt: u64, maximumActive: u32)

  datatype Catalog = Catalog(
    caller: CallerId, relationshipGeneration: u64, generation: u64, digest: DigestText, expiresAt: u64)

  datatype GlobalAccounting = GlobalAccounting(
    nextSequence: u64,
    active: u32,
    dispatchQueued: u32,
    hotTerminal: u64,
    tombstones: u64,
    archiveGeneration: u64,
    lastArchivedAt: Option<u64>,
    admissionOpen: bool)

  datatype PeerAccounting = PeerAccounting(active: u32, revision: u64)

  datatype Tables = Tables(
    executions: map<ExecutionId, Record>,
    tombstones: map<ExecutionId, Tombstone>,
    locations: map<ExecutionId, Location>,
    byRequest: map<RequestKey, ExecutionId>,
    available: map<Key, ExecutionId>,
    claims: map<Key, ExecutionId>,
    terminal: map<Key, ExecutionId>,
    observations: map<Key, Observation>,
    artifacts: map<Key, nat>,
    relationships: map<CallerId, Relationship>,
    catalogs: map<CallerId, Catalog>,
    global: GlobalAccounting,
    peers: map<CallerId, PeerAccounting>)

  const EMPTY: Tables := Tables(
    map[], map[], map[], map[], map[], map[], map[], map[], map[], map[], map[],
    GlobalAccounting(1, 0, 0, 0, 0, 0, None, false), map[])

  // ---- Where a record is indexed ----

  datatype Index = Available | Claims | Settled

  function AvailableKey(r: Record): Key { Key(r.acceptanceSequence, r.execution) }

  function ClaimKey(execution: ExecutionId, claim: Claim): Key { Key(claim.leaseExpiresAt, execution) }

  /** The one key under which a record of this phase stands in an index, if any. */
  function KeyIn(index: Index, r: Record): Option<Key> {
    match index
    case Available =>
      if r.phase.IsPreEntry() && r.phase.ClaimOf().None? then Some(AvailableKey(r)) else None
    case Claims =>
      if r.phase.ClaimOf().Some? then Some(ClaimKey(r.execution, r.phase.ClaimOf().value)) else None
    case Settled =>
      if r.phase.IsActive() then None else Some(Key(SettledAt(r), r.execution))
  }

  /** When a settled record was settled. */
  function SettledAt(r: Record): u64 {
    match r.phase
    case Terminal(_, at) => at
    case Uncertain(at, _) => at
    case _ => 0
  }

  function Rows(t: Tables, index: Index): map<Key, ExecutionId> {
    match index
    case Available => t.available
    case Claims => t.claims
    case Settled => t.terminal
  }

  /** Exactly one index holds every well-formed record. */
  lemma InExactlyOneIndex(r: Record)
    requires r.phase.WellFormed()
    ensures exists index :: KeyIn(index, r).Some? && forall other :: KeyIn(other, r).Some? ==> other == index
  {
    var index := if r.phase.ClaimOf().Some? then Claims else if r.phase.IsActive() then Available else Settled;
    assert KeyIn(index, r).Some?;
    forall other | KeyIn(other, r).Some?
      ensures other == index
    {
    }
  }

  /** The key every hot record should hold in an index. */
  function KeysOf(executions: map<ExecutionId, Record>, index: Index): map<ExecutionId, Option<Key>> {
    map e | e in executions :: KeyIn(index, executions[e])
  }

  /** An index holds each expected key, pointing at its own execution, and nothing else. */
  ghost predicate RowsMatch(rows: map<Key, ExecutionId>, keys: map<ExecutionId, Option<Key>>) {
    && (forall k :: k in rows ==> rows[k] == k.execution && k.execution in keys && keys[k.execution] == Some(k))
    && (forall e :: e in keys && keys[e].Some? ==> keys[e].value in rows && keys[e].value.execution == e)
  }

  ghost predicate IndexAgrees(rows: map<Key, ExecutionId>, executions: map<ExecutionId, Record>, index: Index) {
    RowsMatch(rows, KeysOf(executions, index))
  }

  /** An index after one record moves from key `from` to key `to`. */
  function Moved(rows: map<Key, ExecutionId>, from: Option<Key>, to: Option<Key>, e: ExecutionId): map<Key, ExecutionId> {
    var removed := if from.Some? then rows - {from.value} else rows;
    if to.Some? then removed[to.value := e] else removed
  }

  lemma MoveCompleted(rows: map<Key, ExecutionId>, from: Option<Key>, to: Key, e: ExecutionId)
    ensures Moved(rows, from, None, e)[to := e] == Moved(rows, from, Some(to), e)
    ensures Moved(rows, from, None, e) == if from.Some? then rows - {from.value} else rows
  {
  }

  lemma MoveKeepsRows(rows: map<Key, ExecutionId>, keys: map<ExecutionId, Option<Key>>, e: ExecutionId, to: Option<Key>)
    requires RowsMatch(rows, keys) && e in keys
    requires to.Some? ==> to.value.execution == e
    ensures RowsMatch(Moved(rows, keys[e], to, e), keys[e := to])
  {
  }

  lemma MoveKeepsIndex(rows: map<Key, ExecutionId>, executions: map<ExecutionId, Record>, index: Index, e: ExecutionId, r: Record)
    requires IndexAgrees(rows, executions, index)
    requires e in executions && r.execution == e
    ensures IndexAgrees(Moved(rows, KeyIn(index, executions[e]), KeyIn(index, r), e), executions[e := r], index)
  {
    MoveKeepsRows(rows, KeysOf(executions, index), e, KeyIn(index, r));
    assert KeysOf(executions[e := r], index) == KeysOf(executions, index)[e := KeyIn(index, r)];
  }

  // ---- What the counters count ----

  ghost function ActiveSet(executions: map<ExecutionId, Record>): set<ExecutionId> {
    set e | e in executions && executions[e].phase.IsActive()
  }

  ghost function PreEntrySet(executions: map<ExecutionId, Record>): set<ExecutionId> {
    set e | e in executions && executions[e].phase.IsPreEntry()
  }

  ghost function SettledSet(executions: map<ExecutionId, Record>): set<ExecutionId> {
    set e | e in executions && !executions[e].phase.IsActive()
  }

  ghost function ActiveSetOf(executions: map<ExecutionId, Record>, caller: CallerId): set<ExecutionId> {
    set e | e in executions && executions[e].phase.IsActive() && executions[e].caller == caller
  }

  function PeerActive(peers: map<CallerId, PeerAccounting>, caller: CallerId): u32 {
    if caller in peers then peers[caller].active else 0
  }

  ghost predicate CountersAgree(t: Tables) {
    && t.global.active == |ActiveSet(t.executions)|
    && t.global.dispatchQueued == |PreEntrySet(t.executions)|
    && t.global.hotTerminal == |SettledSet(t.executions)|
    && t.global.tombstones == |t.tombstones|
    && (forall caller {:trigger ActiveSetOf(t.executions, caller)} ::
          PeerActive(t.peers, caller) == |ActiveSetOf(t.executions, caller)|)
  }

  function Adjusted(s: set<ExecutionId>, e: ExecutionId, member: bool): set<ExecutionId> {
    if member then s + {e} else s - {e}
  }

  lemma SetsAfterUpdate(executions: map<ExecutionId, Record>, e: ExecutionId, r: Record)
    ensures ActiveSet(executions[e := r]) == Adjusted(ActiveSet(executions), e, r.phase.IsActive())
    ensures PreEntrySet(executions[e := r]) == Adjusted(PreEntrySet(executions), e, r.phase.IsPreEntry())
    ensures SettledSet(executions[e := r]) == Adjusted(SettledSet(executions), e, !r.phase.IsActive())
    ensures forall caller ::
              ActiveSetOf(executions[e := r], caller)
              == Adjusted(ActiveSetOf(executions, caller), e, r.phase.IsActive() && r.caller == caller)
  {
  }

  // ---- Observation rows ----

  ghost predicate RowsAgree(observations: map<Key, Observation>, executions: map<ExecutionId, Record>) {
    && (forall k :: k in observations ==>
          && k.execution in executions
          && 1 <= k.number <= |executions[k.execution].History()|
          && observations[k] == executions[k.execution].History()[k.number - 1])
    && (forall e, n: u64 :: e in executions && 1 <= n <= |executions[e].History()| ==> Key(n, e) in observations)
  }

  ghost predicate ArtifactsAgree(artifacts: map<Key, nat>, observations: map<Key, Observation>) {
    && (forall k :: k in artifacts <==> k in observations && observations[k].event.Output?)
    && (forall k :: k in artifacts ==> artifacts[k] == observations[k].event.artifact)
  }

  // ---- Primary ownership and request identity ----

  ghost predicate PrimaryAgrees(t: Tables) {
    && t.executions.Keys !! t.tombstones.Keys
    && (forall e :: e in t.executions ==> t.executions[e].execution == e)
    && (forall e :: e in t.tombstones ==> t.tombstones[e].execution == e)
    && t.locations.Keys == t.executions.Keys + t.tombstones.Keys
    && (forall e :: e in t.executions ==> t.locations[e] == HotLocation)
    && (forall e :: e in t.tombstones ==> t.locations[e] == ArchivedLocation)
  }

  function HotRequestKey(r: Record): RequestKey { RequestKey(r.caller, r.request.requestId) }

  function ArchivedRequestKey(t: Tombstone): RequestKey { RequestKey(t.caller, t.requestId) }

  ghost predicate RequestsAgree(t: Tables) {
    && (forall e :: e in t.executions ==> HotRequestKey(t.executions[e]) in t.byRequest
                                          && t.byRequest[HotRequestKey(t.executions[e])] == e)
    && (forall e :: e in t.tombstones ==> ArchivedRequestKey(t.tombstones[e]) in t.byRequest
                                          && t.byRequest[ArchivedRequestKey(t.tombstones[e])] == e)
    && (forall k :: k in t.byRequest ==>
          || (t.byRequest[k] in t.executions && HotRequestKey(t.executions[t.byRequest[k]]) == k)
          || (t.byRequest[k] in t.tombstones && ArchivedRequestKey(t.tombstones[t.byRequest[k]]) == k))
  }

  predicate RelationshipValid(relationship: Relationship) {
    relationship.generation != 0 && relationship.expiresAt != 0 && relationship.maximumActive != 0
  }

  predicate CatalogValid(catalog: Catalog) {
    catalog.relationshipGeneration != 0 && catalog.generation != 0 && catalog.expiresAt != 0
  }

  /** Gate rows are valid, stand under their own caller, and every catalog has its relationship. */
  predicate GatesSound(relationships: map<CallerId, Relationship>, catalogs: map<CallerId, Catalog>) {
    && (forall c :: c in relationships ==> RelationshipValid(relationships[c]) && relationships[c].caller == c)
    && (forall c :: c in catalogs ==> CatalogValid(catalogs[c]) && catalogs[c].caller == c && c in relationships)
  }

  ghost predicate DocumentsSound(t: Tables) {
    && (forall e :: e in t.executions ==> RecordSound(t.executions[e]))
    && (forall e :: e in t.tombstones ==> TombstoneSound(t.tombstones[e]))
    && GatesSound(t.relationships, t.catalogs)
    && CountersReadable(t.global)
  }

  /** The checks repeated on every read of the global counters. */
  predicate CountersReadable(global: GlobalAccounting) {
    global.nextSequence != 0 && (global.archiveGeneration == 0 <==> global.lastArchivedAt.None?)
  }

  ghost predicate IndexesAgree(t: Tables) {
    forall index :: IndexAgrees(Rows(t, index), t.executions, index)
  }

  /** The invariant of every committed state. */
  ghost predicate Consistent(t: Tables) {
    && PrimaryAgrees(t)
    && RequestsAgree(t)
    && DocumentsSound(t)
    && IndexesAgree(t)
    && RowsAgree(t.observations, t.executions)
    && ArtifactsAgree(t.artifacts, t.observations)
    && CountersAgree(t)
  }

  lemma EmptyConsistent()
    ensures Consistent(EMPTY)
  {
  }

  // ---- One record rewritten ----

  /** The facts of a record fixed at acceptance. */
  predicate SameAcceptance(a: Record, b: Record) {
    && a.caller == b.caller && a.relationshipGeneration == b.relationshipGeneration
    && a.request == b.request && a.execution == b.execution
    && a.acceptanceSequence == b.acceptanceSequence && a.acceptedAt == b.acceptedAt
  }

  /** The counters after one record changes from `a` to `b`. */
  ghost predicate Recounted(t: Tables, u: Tables, a: Record, b: Record) {
    && u.global.active - t.global.active == Unit(b.phase.IsActive()) - Unit(a.phase.IsActive())
    && u.global.dispatchQueued - t.global.dispatchQueued == Unit(b.phase.IsPreEntry()) - Unit(a.phase.IsPreEntry())
    && u.global.hotTerminal - t.global.hotTerminal == Unit(!b.phase.IsActive()) - Unit(!a.phase.IsActive())
    && u.global.tombstones == t.global.tombstones
    && u.global.nextSequence == t.global.nextSequence
    && u.global.archiveGeneration == t.global.archiveGeneration
    && u.global.lastArchivedAt == t.global.lastArchivedAt
    && PeerActive(u.peers, a.caller) - PeerActive(t.peers, a.caller)
       == Unit(b.phase.IsActive()) - Unit(a.phase.IsActive())
    && (forall c :: c != a.caller ==> PeerActive(u.peers, c) == PeerActive(t.peers, c))
  }

  function Unit(b: bool): int { if b then 1 else 0 }

  lemma AdjustedSize(s: set<ExecutionId>, e: ExecutionId, member: bool)
    ensures |Adjusted(s, e, member)| == |s| + Unit(member) - Unit(e in s)
  {
  }

  lemma RecountKeepsCounters(t: Tables, u: Tables, e: ExecutionId, r: Record)
    requires CountersAgree(t) && e in t.executions
    requires r.caller == t.executions[e].caller
    requires u.executions == t.executions[e := r] && u.tombstones == t.tombstones
    requires Recounted(t, u, t.executions[e], r)
    ensures CountersAgree(u)
  {
    hide ActiveSet, PreEntrySet, SettledSet, ActiveSetOf, Adjusted, PeerActive;
    SetsAfterUpdate(t.executions, e, r);
    CountedOnce(t.executions, e);
    AdjustedSize(ActiveSet(t.executions), e, r.phase.IsActive());
    AdjustedSize(PreEntrySet(t.executions), e, r.phase.IsPreEntry());
    AdjustedSize(SettledSet(t.executions), e, !r.phase.IsActive());
    forall caller
      ensures PeerActive(u.peers, caller) == |ActiveSetOf(u.executions, caller)|
    {
      AdjustedSize(ActiveSetOf(t.executions, caller), e, r.phase.IsActive() && r.caller == caller);
      assert PeerActive(t.peers, caller) == |ActiveSetOf(t.executions, caller)|;
    }
  }

  lemma CountedOnce(executions: map<ExecutionId, Record>, e: ExecutionId)
    requires e in executions
    ensures e in ActiveSet(executions) <==> executions[e].phase.IsActive()
    ensures e in PreEntrySet(executions) <==> executions[e].phase.IsPreEntry()
    ensures e in SettledSet(executions) <==> !executions[e].phase.IsActive()
    ensures forall caller :: e in ActiveSetOf(executions, caller) <==> executions[e].phase.IsActive() && executions[e].caller == caller
  {
  }

  /** Every table a single-record transaction may not touch is untouched. */
  ghost predicate SameElsewhere(t: Tables, u: Tables) {
    && u.tombstones == t.tombstones && u.locations == t.locations && u.byRequest == t.byRequest
    && u.relationships == t.relationships && u.catalogs == t.catalogs
  }

  ghost predicate Reindexed(t: Tables, u: Tables, a: Record, b: Record) {
    && u.available == Moved(t.available, KeyIn(Available, a), KeyIn(Available, b), a.execution)
    && u.claims == Moved(t.claims, KeyIn(Claims, a), KeyIn(Claims, b), a.execution)
    && u.terminal == Moved(t.terminal, KeyIn(Settled, a), KeyIn(Settled, b), a.execution)
  }

  lemma ReplaceKeepsIdentity(t: Tables, u: Tables, e: ExecutionId, r: Record)
    requires PrimaryAgrees(t) && RequestsAgree(t) && e in t.executions
    requires SameAcceptance(t.executions[e], r)
    requires u.executions == t.executions[e := r] && SameElsewhere(t, u)
    ensures PrimaryAgrees(u) && RequestsAgree(u)
  {
    assert u.executions.Keys == t.executions.Keys;
  }

  lemma ReplaceKeepsDocuments(t: Tables, u: Tables, e: ExecutionId, r: Record)
    requires DocumentsSound(t) && RecordSound(r)
    requires u.executions == t.executions[e := r] && SameElsewhere(t, u)
    requires u.global.nextSequence == t.global.nextSequence
    requires u.global.archiveGeneration == t.global.archiveGeneration
    requires u.global.lastArchivedAt == t.global.lastArchivedAt
    ensures DocumentsSound(u)
  {
  }

  lemma ReplaceKeepsIndexes(t: Tables, u: Tables, e: ExecutionId, r: Record)
    requires IndexesAgree(t) && e in t.executions
    requires t.executions[e].execution == r.execution == e
    requires u.executions == t.executions[e := r]
    requires Reindexed(t, u, t.executions[e], r)
    ensures IndexesAgree(u)
  {
    forall index
      ensures IndexAgrees(Rows(u, index), u.executions, index)
    {
      assert IndexAgrees(Rows(t, index), t.executions, index);
      MoveKeepsIndex(Rows(t, index), t.executions, index, e, r);
      match index case Available => case Claims => case Settled =>
    }
  }

  lemma ReplaceKeepsConsistent(t: Tables, u: Tables, e: ExecutionId, r: Record)
    requires Consistent(t) && e in t.executions
    requires SameAcceptance(t.executions[e], r) && RecordSound(r)
    requires u.executions == t.executions[e := r] && SameElsewhere(t, u)
    requires Reindexed(t, u, t.executions[e], r)
    requires Recounted(t, u, t.executions[e], r)
    requires RowsAgree(u.observations, u.executions) && ArtifactsAgree(u.artifacts, u.observations)
    ensures Consistent(u)
  {
    RecountKeepsCounters(t, u, e, r);
    ReplaceKeepsIdentity(t, u, e, r);
    ReplaceKeepsDocuments(t, u, e, r);
    ReplaceKeepsIndexes(t, u, e, r);
  }

  /** A rewrite that leaves the history alone leaves the observation rows alone. */
  lemma SameHistoryKeepsRows(observations: map<Key, Observation>, executions: map<ExecutionId, Record>, e: ExecutionId, r: Record)
    requires RowsAgree(observations, executions) && e in executions && r.digest == executions[e].digest
    ensures RowsAgree(observations, executions[e := r])
  {
  }

  /** Appending one document adds exactly one row, under a key nothing used before. */
  lemma AppendKeepsRows(observations: map<Key, Observation>, executions: map<ExecutionId, Record>, e: ExecutionId, r: Record, o: Observation)
    requires RowsAgree(observations, executions) && e in executions
    requires r.digest == Link(executions[e].digest, o) && o.sequence == |executions[e].History()| + 1
    ensures Key(o.sequence, e) !in observations
    ensures RowsAgree(observations[Key(o.sequence, e) := o], executions[e := r])
  {
    assert r.History() == executions[e].History() + [o];
  }
}
