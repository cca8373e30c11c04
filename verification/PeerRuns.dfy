/** Facts about whole runs of the serving-peer store. */
module PeerRuns {
  import opened Prelude
  import opened PeerTypes
  import opened PeerTables
  import opened PeerEvolution
  import opened PeerTransaction
  import PeerCommit
  import opened PeerRetention
  import opened PeerAdmission
  import opened PeerStore
  import opened PeerServing
  import opened PeerRelay
  import opened PeerIntegrity
  import opened PeerVerdict

  /** In every reachable state a hot execution stands in one index, under one key, as its phase says. */
  lemma HotRowIsUnique(t: Tables, e: ExecutionId)
    requires Consistent(t) && e in t.executions
    ensures exists index, key ::
              && key in Rows(t, index) && Rows(t, index)[key] == e && KeyIn(index, t.executions[e]) == Some(key)
              && forall other, k :: k in Rows(t, other) && Rows(t, other)[k] == e ==> other == index && k == key
  {
    hide Consistent, KeyIn;
    HotExecutionFinds(t, e);
    InExactlyOneIndex(t.executions[e]);
    var index :| KeyIn(index, t.executions[e]).Some? && forall other :: KeyIn(other, t.executions[e]).Some? ==> other == index;
    IndexRow(t, e, index);
    var key := KeyIn(index, t.executions[e]).value;
    assert key in Rows(t, index) && Rows(t, index)[key] == e && KeyIn(index, t.executions[e]) == Some(key);
    forall other, k | k in Rows(t, other) && Rows(t, other)[k] == e
      ensures other == index && k == key
    {
      RowOwner(t, k, other);
    }
  }

  const REQUEST: Request := Request(7, 1, 0, 1, 0, 100, Limits(0, 1, 0, 1), 0, true)
  const ADMISSION: Admission := Admission(7, 1, REQUEST, true, 5, 1, 1, 1, 1, 1, 1, true)

  /** A store in which one request has just been admitted. */
  method AdmittedOnce() returns (store: PeerStore)
    ensures fresh(store) && Consistent(store.tables)
    ensures store.tables.executions == map[5 := NewRecord(ADMISSION, 1)]
    ensures store.tables.global.admissionOpen && RelationshipOpen(store.tables, 7, 1, 100)
    ensures store.tables.tombstones == map[] && store.tables.global.tombstones == 0
    ensures store.tables.global.hotTerminal == 0 && PeerAccountingOf(store.tables.peers, 7).revision == 1
  {
    hide Consistent, Evolves, WithinCapacity, RecordSound;
    store := new PeerStore();
    store.SetAdmissionOpen(true);
    var configured := store.ConfigureRelationship(Relationship(7, 1, true, 100, 1));
    var published := store.PublishCatalog(Catalog(7, 1, 1, 0, 100));
    CertainWork(store.tables, ADMISSION);
    var admitted := store.Admit(ADMISSION);
    assert admitted.Ok? && admitted.value.AcceptedNow?;
  }

  /** A run of six calls that ends in a state the integrity check refuses: a request is admitted,
      cancelled while queued, and the cancellation is claimed for dispatch. */
  method ClaimedCancellationRun() returns (store: PeerStore)
    ensures Consistent(store.tables) && HalfClaimedSet(store.tables.executions) != {} && !Verified(store.tables)
  {
    hide Consistent, Evolves, Verified, RecordSound, RecordValid;
    store := AdmittedOnce();
    var cancelled := store.RequestCancellation(7, CancellationRequest(1, 5, 1, 0, 1), 2);
    assert store.tables.executions.Keys == {5};
    SettledOrQueuedRow(store.tables, 5);
    var claimed := store.ClaimDispatch(3, 4, 9);
    assert 5 in HalfClaimedSet(store.tables.executions);
    VerdictOnConsistent(store.tables);
  }

  const CLAIM: Claim := Claim(3, 2, 2, 9)

  /** A store in which the only execution has been claimed. */
  method ClaimedOnce() returns (store: PeerStore)
    ensures fresh(store) && Consistent(store.tables)
    ensures store.tables.executions == map[5 := NewRecord(ADMISSION, 1).(phase := DispatchClaimed(CLAIM), revision := 2)]
    ensures store.tables.global.admissionOpen && RelationshipOpen(store.tables, 7, 1, 3)
    ensures store.tables.tombstones == map[] && store.tables.global.tombstones == 0
    ensures store.tables.global.hotTerminal == 0 && PeerAccountingOf(store.tables.peers, 7).revision == 1
  {
    hide Consistent, Evolves, RecordSound, RecordValid;
    store := AdmittedOnce();
    SettledOrQueuedRow(store.tables, 5);
    var claimed := store.ClaimDispatch(3, 2, 9);
    if claimed.Err? || claimed.value.Empty? { assert false; }
    assert claimed.value.record.execution in {5};
  }

  /** A store in which the only execution is retained as uncertain: admitted, claimed, entered, lost. */
  method LostOnce() returns (store: PeerStore)
    ensures fresh(store) && Consistent(store.tables)
    ensures store.tables.executions == map[5 := NewRecord(ADMISSION, 1).(phase := Uncertain(4, 1), revision := 4)]
    ensures store.tables.tombstones == map[] && store.tables.global.tombstones == 0
  {
    hide Consistent, Evolves, RecordSound, RecordValid;
    store := ClaimedOnce();
    var entered := store.MarkEntered(EntryRequest(7, 5, 3, 2, 1, 3, true, true));
    if entered.Err? || !entered.value.EnteredAdapter? { assert false; }
    var lost := store.MarkUncertain(7, 5, 3, 2, 4, 1);
    if lost.Err? { assert false; }
  }

  /** A run that reads a closed page of an empty log and then has an observation appended. */
  method ConcludedAfterClosedPage() returns (page: PageReply, log: seq<Observation>)
    ensures page.closed && page.observations == [] && |log| == 1
  {
    hide Consistent, Evolves, RecordSound, RecordValid, PeerCommit.MayAppend;
    var store := LostOnce();
    assert HistoryOf(store.tables, 5) == [];
    var fetched := store.Observations(7, 5, 0, 1);
    if fetched.Err? { assert false; }
    page := PageAnswer(fetched.value.0, fetched.value.1, 5, 0);
    var o := Observation(5, 1, Final(0, None), 6);
    LastSlotIsKept(store.tables, 5, o);
    var written := store.AppendObservation(7, 5, o, true);
    if written.Err? || !written.value.AppendedNow? { assert false; }
    log := HistoryOf(store.tables, 5);
  }

  /** A run whose archival is answered as a contradiction of the tables, though they agree: the
      outcome lies after the archival and within the boundary. */
  method LateArchivalRun() returns (store: PeerStore, result: Result<(u32, bool), Error>)
    ensures Consistent(store.tables) && result == Err(INCONSISTENT)
  {
    hide Consistent, Evolves, RecordSound, RecordValid, ArchivedBatch;
    store := LostOnce();
    assert SettledBy(store.tables.executions, 1) == {};
    assert Settles(store.tables.executions, 5, 9) && !Settles(store.tables.executions, 5, 1);
    result := store.Archive(9, 1, 1);
  }

  /** A submission checked at its deadline and admitted one tick later. */
  const LATE: Circumstances :=
    Circumstances(true, true, [], true, true, 100, true, true, true, 1, 5, 101, 1, 1, 1, 0, 1, true)

  /** A run whose acceptance is true and yet refused by the caller: the host reads its clock again after
      the deadline check, and answers the deadline as the lease. */
  method LateAcceptanceRun() returns (store: PeerStore, reply: Reply)
    ensures Consistent(store.tables) && reply.AcceptedReply?
    ensures ReplyIsTrue(store.tables, REQUEST, reply) && !ReplyValidFor(reply, REQUEST)
  {
    hide Consistent, Evolves, WithinCapacity, RecordSound, ReplyIsTrue;
    store := new PeerStore();
    store.SetAdmissionOpen(true);
    var configured := store.ConfigureRelationship(Relationship(7, 1, true, 200, 1));
    var published := store.PublishCatalog(Catalog(7, 1, 1, 0, 200));
    CertainWork(store.tables, AdmissionFor(REQUEST, LATE));
    var answer := Invoke(store, REQUEST, LATE);
    if answer.Err? { assert false; }
    reply := answer.value;
  }
}
