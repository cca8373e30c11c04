/** What a verdict of the integrity check means. Acceptance leaves no stray row in any table; and of
    the states that runs can reach, it refuses exactly those with a cancellation that was claimed
    before its execution entered an adapter. */
module PeerVerdict {
  import opened Prelude
  import opened Sums
  import opened PeerTypes
  import opened PeerTables
  import opened PeerEvolution
  import opened PeerTransaction
  import opened PeerCommit
  import opened PeerIntegrity
  import PeerAdmission

  /** Rows that contain one key per owner hold nothing else exactly when the sizes agree. */
  lemma {:induction false} OwnersFillRows<K, E>(rows: map<K, E>, keyOf: map<E, K>)
    requires forall e :: e in keyOf ==> keyOf[e] in rows && rows[keyOf[e]] == e
    ensures |keyOf| <= |rows|
    ensures |keyOf| == |rows| <==> forall k :: k in rows ==> rows[k] in keyOf && keyOf[rows[k]] == k
    decreases |keyOf|
  {
    if keyOf == map[] {
      if |rows| > 0 {
        assert rows != map[];
        var k :| k in rows;
      }
    } else {
      var e :| e in keyOf;
      var k := keyOf[e];
      OwnersFillRows(rows - {k}, keyOf - {e});
      assert |keyOf| == |keyOf - {e}| + 1 by { assert keyOf.Keys == (keyOf - {e}).Keys + {e}; }
      assert |rows| == |rows - {k}| + 1 by { assert rows.Keys == (rows - {k}).Keys + {k}; }
      assert forall j :: j in rows ==> j == k || j in rows - {k};
    }
  }

  // ---- From acceptance to agreement ----

  ghost function KeysIn(executions: map<ExecutionId, Record>, index: Index): map<ExecutionId, Key> {
    map e | e in executions && KeyIn(index, executions[e]).Some? :: KeyIn(index, executions[e]).value
  }

  lemma KeysInSize(executions: map<ExecutionId, Record>, index: Index)
    ensures |KeysIn(executions, index)| == |Members(executions, executions.Keys, IndexedIn(index))|
    ensures Members(executions, executions.Keys, IndexedIn(Settled)) == Members(executions, executions.Keys, NoLongerActive)
  {
    assert KeysIn(executions, index).Keys == Members(executions, executions.Keys, IndexedIn(index));
  }

  lemma AgreementByKeys(rows: map<Key, ExecutionId>, executions: map<ExecutionId, Record>, index: Index)
    requires forall e :: e in executions ==> executions[e].execution == e && RowPoints(rows, KeyIn(index, executions[e]), e)
    ensures IndexAgrees(rows, executions, index)
            <==> forall k :: k in rows ==> rows[k] in KeysIn(executions, index) && KeysIn(executions, index)[rows[k]] == k
  {
  }

  lemma FullIndexAgrees(rows: map<Key, ExecutionId>, executions: map<ExecutionId, Record>, index: Index)
    requires forall e :: e in executions ==> executions[e].execution == e && RowPoints(rows, KeyIn(index, executions[e]), e)
    ensures IndexAgrees(rows, executions, index) <==> |rows| == |Members(executions, executions.Keys, IndexedIn(index))|
  {
    KeysInSize(executions, index);
    AgreementByKeys(rows, executions, index);
    hide IndexAgrees, Members;
    OwnersFillRows(rows, KeysIn(executions, index));
  }

  lemma IndexRowOfHot(t: Tables, e: ExecutionId, index: Index)
    requires Verified(t) && e in t.executions
    ensures t.executions[e].execution == e && RowPoints(Rows(t, index), KeyIn(index, t.executions[e]), e)
  {
    hide CountsMatch, CallersMatch, LogStored, RowPoints, KeyIn, GatesSound, RecordValid;
    assert HotRowGood(t, e);
  }

  lemma VerifiedIndexes(t: Tables)
    requires Verified(t)
    ensures IndexesAgree(t)
  {
    hide HotRowGood, CallersMatch, IndexAgrees, KeyIn, RowPoints, Members;
    forall index
      ensures IndexAgrees(Rows(t, index), t.executions, index)
    {
      forall e | e in t.executions
        ensures t.executions[e].execution == e && RowPoints(Rows(t, index), KeyIn(index, t.executions[e]), e)
      {
        IndexRowOfHot(t, e, index);
      }
      FullIndexAgrees(Rows(t, index), t.executions, index);
      KeysInSize(t.executions, index);
      match index case Available => case Claims => case Settled =>
    }
  }

  lemma VerifiedPrimary(t: Tables)
    requires Verified(t)
    ensures PrimaryAgrees(t)
  {
    hide CountsMatch, CallersMatch, LogStored, IndexRowGood, RecordValid, TombstoneValid, GatesSound, RequestRowGood;
    assert forall e :: e in t.executions ==> HotRowGood(t, e);
    assert forall e :: e in t.tombstones ==> TombstoneRowGood(t, e);
    assert forall e :: e in t.locations ==> LocationRowGood(t, e);
  }

  lemma VerifiedRequests(t: Tables)
    requires Verified(t)
    ensures RequestsAgree(t)
  {
    hide CountsMatch, CallersMatch, LogStored, IndexRowGood, RecordValid, TombstoneValid, GatesSound, LocationRowGood;
    assert forall e :: e in t.executions ==> HotRowGood(t, e);
    assert forall e :: e in t.tombstones ==> TombstoneRowGood(t, e);
    forall k | k in t.byRequest
      ensures || (t.byRequest[k] in t.executions && HotRequestKey(t.executions[t.byRequest[k]]) == k)
              || (t.byRequest[k] in t.tombstones && ArchivedRequestKey(t.tombstones[t.byRequest[k]]) == k)
    {
      assert RequestRowGood(t, k);
    }
  }

  ghost predicate LogsStored(t: Tables) {
    forall e :: e in t.executions ==> t.executions[e].execution == e && LogStored(t, t.executions[e])
  }

  /** No row outside the logs. */
  ghost predicate NoStray<T>(rows: map<Key, T>, executions: map<ExecutionId, Record>) {
    forall k :: k in rows ==> k.execution in executions && 1 <= k.number <= executions[k.execution].lastSequence
  }

  lemma StrayBySize<T>(rows: map<Key, T>, executions: map<ExecutionId, Record>)
    ensures NoStray(rows, executions) <==> |rows| == |OwnedRows(rows, executions, executions.Keys)|
  {
    var owned := OwnedRows(rows, executions, executions.Keys);
    if |rows| == |owned| {
      SubsetOfSameSize(owned, rows.Keys);
      assert forall k :: k in rows ==> k in owned;
    }
    if NoStray(rows, executions) {
      assert owned == rows.Keys;
    }
  }

  lemma RowsFromLogs(t: Tables)
    requires LogsStored(t)
    ensures RowsAgree(t.observations, t.executions) <==> NoStray(t.observations, t.executions)
  {
    forall e, n: u64 | e in t.executions && 1 <= n <= t.executions[e].lastSequence
      ensures Key(n, e) in t.observations && t.observations[Key(n, e)] == t.executions[e].History()[n - 1]
    {
      assert RowStored(t, t.executions[e], n);
    }
    assert forall k: Key :: k == Key(k.number, k.execution);
  }

  lemma ArtifactsFromLogs(t: Tables)
    requires LogsStored(t) && NoStray(t.observations, t.executions)
    ensures ArtifactsAgree(t.artifacts, t.observations) <==> NoStray(t.artifacts, t.executions)
  {
    forall k | k in t.observations
      ensures RowStored(t, t.executions[k.execution], k.number) && k == Key(k.number, t.executions[k.execution].execution)
    {
      assert LogStored(t, t.executions[k.execution]);
    }
    forall k: Key | k.execution in t.executions && 1 <= k.number <= t.executions[k.execution].lastSequence
      ensures k in t.observations
    {
      assert LogStored(t, t.executions[k.execution]);
      assert RowStored(t, t.executions[k.execution], k.number);
      assert k == Key(k.number, t.executions[k.execution].execution);
    }
    hide LogStored, LogsStored;
  }

  lemma VerifiedLogs(t: Tables)
    requires Verified(t)
    ensures RowsAgree(t.observations, t.executions) && ArtifactsAgree(t.artifacts, t.observations)
  {
    hide CallersMatch, IndexRowGood, RecordValid, GatesSound, Members, ActiveSet, LogStored, OwnedRows, NoStray, RowsAgree, ArtifactsAgree;
    assert LogsStored(t) by {
      assert forall e :: e in t.executions ==> HotRowGood(t, e);
    }
    StrayBySize(t.observations, t.executions);
    StrayBySize(t.artifacts, t.executions);
    RowsFromLogs(t);
    ArtifactsFromLogs(t);
  }

  lemma VerifiedCounters(t: Tables)
    requires Verified(t)
    ensures t.global.dispatchQueued + |HalfClaimedSet(t.executions)| == |PreEntrySet(t.executions)|
    ensures CountersAgree(t) <==> HalfClaimedSet(t.executions) == {}
  {
    hide HotRowGood, Members, TombstoneRowGood, OwnedRows, IndexRowGood, LogStored;
    QueuedApart(t.executions);
    AllMembers(t.executions);
  }

  /** Acceptance means that ownership, request identity, every index, every log and artifact row and
      every counter but the queued one agree with the records, with no stray row anywhere. */
  lemma VerifiedAgrees(t: Tables)
    requires Verified(t)
    ensures PrimaryAgrees(t) && RequestsAgree(t) && IndexesAgree(t)
    ensures RowsAgree(t.observations, t.executions) && ArtifactsAgree(t.artifacts, t.observations)
    ensures t.global.dispatchQueued + |HalfClaimedSet(t.executions)| == |PreEntrySet(t.executions)|
    ensures CountersAgree(t) <==> HalfClaimedSet(t.executions) == {}
  {
    hide *;
    VerifiedPrimary(t);
    VerifiedRequests(t);
    VerifiedIndexes(t);
    VerifiedLogs(t);
    VerifiedCounters(t);
  }

  ghost function HalfClaimedSet(executions: map<ExecutionId, Record>): set<ExecutionId> {
    set e | e in executions && HalfClaimed(executions[e].phase)
  }

  lemma QueuedApart(executions: map<ExecutionId, Record>)
    ensures |PreEntrySet(executions)| == |Members(executions, executions.Keys, Queued)| + |HalfClaimedSet(executions)|
  {
    assert PreEntrySet(executions) == Members(executions, executions.Keys, Queued) + HalfClaimedSet(executions);
  }

  // ---- From agreement to the verdict ----

  lemma ConsistentLog(t: Tables, e: ExecutionId)
    requires Consistent(t) && e in t.executions
    ensures t.executions[e].execution == e && LogStored(t, t.executions[e])
  {
    hide Consistent;
    HotExecutionFinds(t, e);
    SoundHistory(t, e);
    assert |Outputs(t.executions[e].History())| == t.executions[e].accounting.outputs;
    hide RecordSound;
    forall n: u64 | 1 <= n <= t.executions[e].lastSequence
      ensures RowStored(t, t.executions[e], n)
    {
      LogRow(t, e, n);
      ArtifactOf(t, Key(n, e));
    }
  }

  lemma ArtifactOf(t: Tables, k: Key)
    requires Consistent(t) && k in t.observations
    ensures k in t.artifacts <==> t.observations[k].event.Output?
    ensures k in t.artifacts ==> t.artifacts[k] == t.observations[k].event.artifact
  {
    hide PrimaryAgrees, RequestsAgree, IndexesAgree, CountersAgree, DocumentsSound, RowsAgree;
  }

  lemma ConsistentHot(t: Tables, e: ExecutionId)
    requires Consistent(t) && e in t.executions
    ensures HotRowGood(t, e)
  {
    hide IndexesAgree, RowsAgree, ArtifactsAgree, CountersAgree, DocumentsSound, RecordValid, LogStored;
    ConsistentLog(t, e);
    HotExecutionFinds(t, e);
    forall index
      ensures RowPoints(Rows(t, index), KeyIn(index, t.executions[e]), e)
    {
      if KeyIn(index, t.executions[e]).Some? {
        IndexRow(t, e, index);
      }
    }
    assert Rows(t, Available) == t.available && Rows(t, Claims) == t.claims && Rows(t, Settled) == t.terminal;
  }

  lemma ConsistentTombstone(t: Tables, e: ExecutionId)
    requires Consistent(t) && e in t.tombstones
    ensures TombstoneRowGood(t, e)
  {
    hide IndexesAgree, CountersAgree, RecordSound, TombstoneValid;
    assert TombstoneSound(t.tombstones[e]);
  }

  ghost function RequestOf(t: Tables, e: ExecutionId): RequestKey {
    if e in t.executions then HotRequestKey(t.executions[e])
    else if e in t.tombstones then ArchivedRequestKey(t.tombstones[e]) else RequestKey(0, 0)
  }

  lemma ConsistentRequests(t: Tables)
    requires PrimaryAgrees(t) && RequestsAgree(t)
    ensures |t.locations| == |t.executions| + |t.tombstones| && |t.byRequest| == |t.locations|
  {
    hide PrimaryAgrees, RequestsAgree, RequestOf;
    LocationsSize(t);
    RequestsOfAll(t);
    RequestsSize(t);
  }

  lemma RequestsSize(t: Tables)
    requires forall e :: e in t.locations ==> RequestOf(t, e) in t.byRequest && t.byRequest[RequestOf(t, e)] == e
    requires forall k :: k in t.byRequest ==> t.byRequest[k] in t.locations && RequestOf(t, t.byRequest[k]) == k
    ensures |t.byRequest| == |t.locations|
  {
    hide RequestOf;
    var keyOf := map e | e in t.locations :: RequestOf(t, e);
    OwnersFillRows(t.byRequest, keyOf);
    assert keyOf.Keys == t.locations.Keys;
  }

  lemma LocationsSize(t: Tables)
    requires PrimaryAgrees(t)
    ensures |t.locations| == |t.executions| + |t.tombstones|
  {
    assert |t.executions.Keys + t.tombstones.Keys| == |t.executions| + |t.tombstones|;
  }

  lemma RequestsOfAll(t: Tables)
    requires PrimaryAgrees(t) && RequestsAgree(t)
    ensures forall e :: e in t.locations ==> RequestOf(t, e) in t.byRequest && t.byRequest[RequestOf(t, e)] == e
    ensures forall k :: k in t.byRequest ==> t.byRequest[k] in t.locations && RequestOf(t, t.byRequest[k]) == k
  {
  }

  lemma ConsistentIndexSizes(t: Tables)
    requires Consistent(t)
    ensures |t.available| == |Members(t.executions, t.executions.Keys, IndexedIn(Available))|
    ensures |t.claims| == |Members(t.executions, t.executions.Keys, IndexedIn(Claims))|
    ensures |t.terminal| == |Members(t.executions, t.executions.Keys, NoLongerActive)|
  {
    hide PrimaryAgrees, RequestsAgree, RowsAgree, ArtifactsAgree, CountersAgree, DocumentsSound, IndexAgrees, Members, KeyIn, HotRowGood;
    forall index
      ensures |Rows(t, index)| == |Members(t.executions, t.executions.Keys, IndexedIn(index))|
    {
      forall e | e in t.executions
        ensures t.executions[e].execution == e && RowPoints(Rows(t, index), KeyIn(index, t.executions[e]), e)
      {
        ConsistentHot(t, e);
        PointsOf(t, e, index);
      }
      assert IndexAgrees(Rows(t, index), t.executions, index);
      FullIndexAgrees(Rows(t, index), t.executions, index);
    }
    KeysInSize(t.executions, Settled);
    assert Rows(t, Available) == t.available && Rows(t, Claims) == t.claims && Rows(t, Settled) == t.terminal;
  }

  lemma PointsOf(t: Tables, e: ExecutionId, index: Index)
    requires e in t.executions && HotRowGood(t, e)
    ensures t.executions[e].execution == e && RowPoints(Rows(t, index), KeyIn(index, t.executions[e]), e)
  {
    hide LogStored, RecordValid, KeyIn, RowPoints;
  }

  lemma ConsistentRowSizes(t: Tables)
    requires Consistent(t)
    ensures |t.observations| == |OwnedRows(t.observations, t.executions, t.executions.Keys)|
    ensures |t.artifacts| == |OwnedRows(t.artifacts, t.executions, t.executions.Keys)|
  {
    hide PrimaryAgrees, RequestsAgree, RowsAgree, ArtifactsAgree, IndexesAgree, CountersAgree, DocumentsSound, LogStored, NoStray, OwnedRows;
    forall e | e in t.executions
      ensures t.executions[e].execution == e && LogStored(t, t.executions[e])
    {
      ConsistentLog(t, e);
    }
    RowsFromLogs(t);
    ArtifactsFromLogs(t);
    StrayBySize(t.observations, t.executions);
    StrayBySize(t.artifacts, t.executions);
  }

  lemma ActiveOrSettled(executions: map<ExecutionId, Record>)
    ensures |executions| == |ActiveSet(executions)| + |SettledSet(executions)|
  {
    assert executions.Keys == ActiveSet(executions) + SettledSet(executions);
  }

  lemma ConsistentCounts(t: Tables)
    requires Consistent(t)
    ensures CountsMatch(t) <==> HalfClaimedSet(t.executions) == {}
    ensures CallersMatch(t)
  {
    hide PrimaryAgrees, RequestsAgree, RowsAgree, ArtifactsAgree, IndexesAgree, DocumentsSound, Members, OwnedRows, ActiveSet, PreEntrySet, SettledSet, HalfClaimedSet;
    ConsistentRequests(t);
    ConsistentIndexSizes(t);
    ConsistentRowSizes(t);
    ActiveOrSettled(t.executions);
    QueuedApart(t.executions);
    AllMembers(t.executions);
  }

  /** Of the states that runs reach, the check refuses exactly those that hold a cancellation
      claimed before adapter entry. */
  lemma VerdictOnConsistent(t: Tables)
    requires Consistent(t)
    ensures Verified(t) <==> HalfClaimedSet(t.executions) == {}
  {
    hide HotRowGood, TombstoneRowGood, CountsMatch, CallersMatch, Consistent, GatesSound, HalfClaimedSet, ReadSnapshot;
    GateRowsOwned(t);
    forall e | e in t.executions ensures HotRowGood(t, e) { ConsistentHot(t, e); }
    forall e | e in t.tombstones ensures TombstoneRowGood(t, e) { ConsistentTombstone(t, e); }
    forall k | k in t.byRequest
      ensures RequestRowGood(t, k)
    {
      PeerAdmission.IndexedRequest(t, k);
      ReadSnapshotFinds(t, t.byRequest[k]);
    }
    forall e | e in t.locations
      ensures LocationRowGood(t, e)
    {
      ReadSnapshotFinds(t, e);
      LocationTells(t, e);
    }
    ConsistentCounts(t);
  }

  lemma LocationTells(t: Tables, e: ExecutionId)
    requires Consistent(t) && e in t.locations
    ensures e in Known(t) && (e in t.executions <==> t.locations[e] == HotLocation)
  {
    hide RequestsAgree, RowsAgree, ArtifactsAgree, IndexesAgree, DocumentsSound, CountersAgree;
  }
}
