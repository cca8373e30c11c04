/** Archival of settled executions into tombstones, oldest first. */
module PeerRetention {
  import opened Prelude
  import opened Sums
  import opened PeerTypes
  import opened PeerTables
  import opened PeerEvolution
  import opened PeerTransaction
  import opened PeerCommit
  import opened PeerScan

  // ---- The tombstone document ----

  /** The outputs of a well-formed log are its output documents in order. */
  lemma {:induction false} OutputsAreOrdered(log: seq<Observation>, execution: ExecutionId)
    requires LogWellFormed(log, execution)
    ensures forall i :: 0 <= i < |Outputs(log)| ==>
              && Outputs(log)[i] in log && Outputs(log)[i].event.Output?
              && ObservationValid(Outputs(log)[i]) && Outputs(log)[i].execution == execution
              && Outputs(log)[i].sequence <= |log|
              && (i > 0 ==> Outputs(log)[i - 1].sequence < Outputs(log)[i].sequence)
  {
    if log != [] {
      var shorter := log[..|log| - 1];
      assert LogWellFormed(shorter, execution);
      OutputsAreOrdered(shorter, execution);
      assert log[|log| - 1] in log;
      assert forall o :: o in shorter ==> o in log;
    }
  }

  /** Archival refuses exactly the settled records whose outcome is later than the archival. */
  lemma TombstoneValidity(r: Record, archivedAt: u64)
    requires RecordSound(r) && !r.phase.IsActive() && archivedAt != 0
    ensures TombstoneValid(TombstoneOf(r, archivedAt)) <==> SettledAt(r) <= archivedAt
  {
    OutputsAreOrdered(r.History(), r.execution);
  }

  // ---- Its parts, read row by row ----

  /** The retained outputs: every output row of the log, in sequence order. */
  method CollectOutputs(t: Tables, r: Record) returns (outputs: seq<Observation>)
    requires Consistent(t) && r.execution in t.executions && t.executions[r.execution] == r
    ensures outputs == Outputs(r.History())
  {
    hide Consistent;
    SoundHistory(t, r.execution);
    outputs := [];
    var log := r.History();
    assert log[..0] == [];
    var sequence: u64 := 0;
    while sequence < r.lastSequence
      invariant sequence <= r.lastSequence == |log|
      invariant outputs == Outputs(log[..sequence])
    {
      LogRow(t, r.execution, sequence + 1);
      if Key(sequence + 1, r.execution) !in t.observations { assert false; }
      var o := t.observations[Key(sequence + 1, r.execution)];
      assert log[..sequence + 1] == log[..sequence] + [o];
      AppendedLog(log[..sequence], o);
      if o.event.Output? {
        outputs := outputs + [o];
      }
      sequence := sequence + 1;
    }
    assert log[..sequence] == log;
  }

  ghost function KeysThrough(e: ExecutionId, sequence: u64): set<Key> {
    set n: u64 | 1 <= n <= sequence :: Key(n, e)
  }

  /** Removes the observation and artifact rows of a whole log. */
  method CompactRows(t: Tables, r: Record) returns (observations: map<Key, Observation>, artifacts: map<Key, nat>)
    requires Consistent(t) && r.execution in t.executions && t.executions[r.execution] == r
    ensures observations == t.observations - RowsOf(t.observations, r.execution)
    ensures artifacts == t.artifacts - RowsOf(t.artifacts, r.execution)
  {
    hide Consistent;
    observations, artifacts := t.observations, t.artifacts;
    var sequence: u64 := 0;
    while sequence < r.lastSequence
      invariant sequence <= r.lastSequence
      invariant observations == t.observations - KeysThrough(r.execution, sequence)
      invariant artifacts == t.artifacts - KeysThrough(r.execution, sequence)
    {
      var key := Key(sequence + 1, r.execution);
      LogRow(t, r.execution, sequence + 1);
      if key !in observations { assert false; }
      observations := observations - {key};
      artifacts := artifacts - {key};
      sequence := sequence + 1;
      assert KeysThrough(r.execution, sequence) == KeysThrough(r.execution, sequence - 1) + {key};
    }
    RowsWithinLog(t, r.execution);
  }

  /** The rows of a hot execution are numbered by its log. */
  lemma RowsWithinLog(t: Tables, e: ExecutionId)
    requires Consistent(t) && e in t.executions
    ensures forall k :: k in t.observations && k.execution == e ==> k in KeysThrough(e, t.executions[e].lastSequence)
    ensures forall k :: k in t.artifacts ==> k in t.observations
  {
    hide PrimaryAgrees, RequestsAgree, DocumentsSound, IndexesAgree, CountersAgree, RecordSound;
    SoundRecord(t, e);
    forall k | k in t.observations && k.execution == e
      ensures k in KeysThrough(e, t.executions[e].lastSequence)
    {
      assert k == Key(k.number, e);
    }
  }

  // ---- One execution ----

  /** Moves one settled execution behind its tombstone. */
  method ArchiveOne(t: Tables, key: Key, archivedAt: u64) returns (result: Result<Tables, Error>)
    requires Consistent(t) && key in t.terminal && archivedAt != 0
    ensures result.Ok? <==> key.number <= archivedAt && t.global.tombstones < U64_MAX
    ensures result.Err? ==> result.error == if key.number <= archivedAt then EXHAUSTED else INCONSISTENT
    ensures result.Ok? ==>
              && Consistent(result.value) && Evolves(t, result.value)
              && key.execution in t.executions && KeyIn(Settled, t.executions[key.execution]) == Some(key)
              && Compacted(t, result.value, key.execution, TombstoneOf(t.executions[key.execution], archivedAt))
              && key.execution in result.value.tombstones
              && Keeps(t.executions[key.execution], result.value.tombstones[key.execution], archivedAt)
  {
    hide Consistent, Evolves, RecordSound, TombstoneSound, TombstoneValid, ArchivedFrom, Keeps;
    RowOwner(t, key, Settled);
    var execution := t.terminal[key];
    ArchivalFacts(t, execution);
    if execution !in t.locations || t.locations[execution] != HotLocation { assert false; }
    if execution in t.tombstones { assert false; }
    if execution !in t.executions { assert false; }
    var record := t.executions[execution];
    if !record.phase.Terminal? && !record.phase.Uncertain? { assert false; }
    if HotRequestKey(record) !in t.byRequest || t.byRequest[HotRequestKey(record)] != execution { assert false; }
    var disposition := Unresolved(0, 0);
    if record.phase.Terminal? {
      LogRow(t, execution, record.phase.sequence);
      if Key(record.phase.sequence, execution) !in t.observations { assert false; }
      disposition := Finished(t.observations[Key(record.phase.sequence, execution)]);
    } else {
      disposition := Unresolved(record.phase.uncertainAt, record.phase.reasonBytes);
    }
    var outputs := CollectOutputs(t, record);
    var tombstone := Tombstone(
      record.caller, record.relationshipGeneration, record.request.requestId, record.request.digest, record.execution,
      record.acceptanceSequence, record.acceptedAt, disposition, record.cancellation, record.lastSequence,
      record.digest, record.accounting, outputs, archivedAt);
    TombstoneValidity(record, archivedAt);
    assert tombstone == TombstoneOf(record, archivedAt);
    if !TombstoneValid(tombstone) { return Err(INCONSISTENT); }
    TombstoneIsSound(record, archivedAt);
    var observations, artifacts := CompactRows(t, record);
    if t.global.hotTerminal == 0 { assert false; }
    if t.global.tombstones == U64_MAX { return Err(EXHAUSTED); }
    var write := t.(
      executions := t.executions - {execution},
      tombstones := t.tombstones[execution := tombstone],
      locations := t.locations[execution := ArchivedLocation],
      terminal := t.terminal - {key},
      observations := observations, artifacts := artifacts,
      global := t.global.(hotTerminal := t.global.hotTerminal - 1, tombstones := t.global.tombstones + 1));
    CommitArchive(t, write, execution, tombstone);
    TombstoneKeeps(record, archivedAt);
    return Ok(write);
  }

  /** What the corruption checks of archival look at always holds of a settled row. */
  lemma ArchivalFacts(t: Tables, e: ExecutionId)
    requires Consistent(t) && e in t.executions && !t.executions[e].phase.IsActive()
    ensures e in t.locations && t.locations[e] == HotLocation && e !in t.tombstones
    ensures t.executions[e].execution == e && RecordSound(t.executions[e])
    ensures HotRequestKey(t.executions[e]) in t.byRequest && t.byRequest[HotRequestKey(t.executions[e])] == e
    ensures t.global.hotTerminal > 0
    ensures t.executions[e].phase.Terminal? ==>
              1 <= t.executions[e].phase.sequence == t.executions[e].lastSequence == |t.executions[e].History()|
  {
    hide IndexesAgree, RowsAgree, ArtifactsAgree;
    assert RecordSound(t.executions[e]);
    assert e in SettledSet(t.executions);
  }

  // ---- A batch ----

  datatype Page = Page(tables: Tables, archived: u32, more: bool)

  ghost predicate Settles(executions: map<ExecutionId, Record>, e: ExecutionId, before: u64) {
    e in executions && !executions[e].phase.IsActive() && SettledAt(executions[e]) <= before
  }

  /** The executions settled by some time. */
  ghost function SettledBy(executions: map<ExecutionId, Record>, bound: u64): set<ExecutionId> {
    set e | e in executions && Settles(executions, e, bound)
  }

  function Earlier(a: u64, b: u64): u64 { if a <= b then a else b }

  /** How many executions one batch can move: those within both boundaries, up to the batch size. */
  ghost function BatchSize(t: Tables, before: u64, archivedAt: u64, limit: u32): u32 {
    var eligible := |SettledBy(t.executions, Earlier(before, archivedAt))|;
    if eligible <= limit then eligible else limit
  }

  /** An execution settled after the archival but within the boundary. */
  ghost predicate LateOutcome(t: Tables, before: u64, archivedAt: u64) {
    exists e :: Settles(t.executions, e, before) && !Settles(t.executions, e, archivedAt)
  }

  /** Why a batch is refused, if it is. The tables are called contradictory exactly when the batch
      has room left after all that can be moved and a late outcome is next. */
  ghost function ArchiveRefusal(t: Tables, before: u64, archivedAt: u64, limit: u32): Option<Error> {
    var n := BatchSize(t, before, archivedAt, limit);
    if before == 0 || archivedAt == 0 || limit == 0 then Some(Invalid)
    else if t.global.tombstones + n > U64_MAX then Some(EXHAUSTED)
    else if n < limit && LateOutcome(t, before, archivedAt) then Some(INCONSISTENT)
    else if n > 0 && t.global.archiveGeneration == U64_MAX then Some(EXHAUSTED)
    else None
  }

  ghost function RowsUpTo(rows: map<Key, ExecutionId>, bound: u64): set<Key> {
    set k | k in rows && k.number <= bound
  }

  /** The terminal rows up to some time are the executions settled by it. */
  lemma RowsOfSettled(t: Tables, bound: u64)
    requires Consistent(t)
    ensures |RowsUpTo(t.terminal, bound)| == |SettledBy(t.executions, bound)|
    ensures forall k :: k in t.terminal ==> Settles(t.executions, k.execution, k.number)
    ensures forall k :: k in t.terminal && Settles(t.executions, k.execution, bound) ==> k.number <= bound
    ensures forall e :: Settles(t.executions, e, bound) ==> exists k :: k in RowsUpTo(t.terminal, bound) && k.execution == e
  {
    hide Consistent;
    forall k | k in t.terminal
      ensures k.execution in t.executions && !t.executions[k.execution].phase.IsActive()
      ensures k == Key(SettledAt(t.executions[k.execution]), k.execution)
    {
      RowOwner(t, k, Settled);
      HotExecutionFinds(t, k.execution);
    }
    forall e | e in t.executions && !t.executions[e].phase.IsActive()
      ensures Key(SettledAt(t.executions[e]), e) in t.terminal
    {
      SettledOrQueuedRow(t, e);
    }
    var rows, settled := RowsUpTo(t.terminal, bound), SettledBy(t.executions, bound);
    forall e | e in settled
      ensures exists k :: k in rows && k.execution == e
    {
      assert Key(SettledAt(t.executions[e]), e) in rows;
    }
    assert settled == set k | k in rows :: k.execution;
    MatchedSetsSameSize(rows, settled, (k: Key) => k.execution);
  }

  /** The first rows in order that are within a time, and then no more, are all of them. */
  lemma LeadersUpTo(rows: map<Key, ExecutionId>, keys: seq<Key>, n: nat, bound: u64)
    requires Leads(rows, keys) && n <= |keys| && forall i :: 0 <= i < n ==> keys[i].number <= bound
    ensures n <= |RowsUpTo(rows, bound)|
    ensures (if n < |keys| then keys[n].number > bound else forall k :: k in rows ==> k in keys) ==>
              RowsUpTo(rows, bound) == KeySet(keys[..n]) && |RowsUpTo(rows, bound)| == n
  {
    KeySetSize(keys[..n]);
    assert KeySet(keys[..n]) <= RowsUpTo(rows, bound);
    SubsetIsNoLarger(KeySet(keys[..n]), RowsUpTo(rows, bound));
    if if n < |keys| then keys[n].number > bound else forall k :: k in rows ==> k in keys {
      forall k | k in RowsUpTo(rows, bound)
        ensures k in keys[..n]
      {
        if k in keys {
          var j :| 0 <= j < |keys| && keys[j] == k;
          assert j < n;
        }
      }
      assert RowsUpTo(rows, bound) == KeySet(keys[..n]);
    }
  }

  /** The executions that left the hot table. */
  function Gone(executions: map<ExecutionId, Record>, left: map<ExecutionId, Record>): set<ExecutionId> {
    executions.Keys - left.Keys
  }

  /** Tables that archival never touches, and what it does to the counters. */
  ghost predicate OnlyArchived(t: Tables, u: Tables, archived: nat) {
    && u == t.(executions := u.executions, tombstones := u.tombstones, locations := u.locations,
               terminal := u.terminal, observations := u.observations, artifacts := u.artifacts, global := u.global)
    && u.global == t.global.(hotTerminal := u.global.hotTerminal, tombstones := u.global.tombstones,
                             archiveGeneration := u.global.archiveGeneration, lastArchivedAt := u.global.lastArchivedAt)
    && u.global.hotTerminal == t.global.hotTerminal - archived
    && u.global.tombstones == t.global.tombstones + archived
  }

  /** Only settled executions within both boundaries left, and nothing that stayed changed. */
  ghost predicate OnlyEligibleLeft(executions: map<ExecutionId, Record>, left: map<ExecutionId, Record>, before: u64, archivedAt: u64) {
    && (forall e :: e in left ==> e in executions && left[e] == executions[e])
    && (forall e :: e in Gone(executions, left) ==> Settles(executions, e, before) && Settles(executions, e, archivedAt))
  }

  /** Whatever left was settled before whatever settled execution stayed. */
  ghost predicate OldestLeft(executions: map<ExecutionId, Record>, left: map<ExecutionId, Record>) {
    forall d, e :: d in Gone(executions, left) && e in left && !left[e].phase.IsActive() ==>
      KeyBelow(Key(SettledAt(executions[d]), d), Key(SettledAt(left[e]), e))
  }

  /** Every execution that left has its tombstone, which keeps what it was. */
  ghost predicate Buried(
    before: map<ExecutionId, Record>, after: map<ExecutionId, Record>, tombstones: map<ExecutionId, Tombstone>, archivedAt: u64)
  {
    forall e :: e in before && e !in after ==> e in tombstones && Keeps(before[e], tombstones[e], archivedAt)
  }

  /** What one archival batch does: it moves the oldest settled executions up to the boundary, at
      most `limit` of them, each behind its own tombstone, and reports whether any is left over. */
  ghost predicate ArchivedBatch(t: Tables, p: Page, before: u64, archivedAt: u64, limit: u32) {
    && OnlyArchived(t, p.tables, p.archived)
    && |Gone(t.executions, p.tables.executions)| == p.archived <= limit
    && OnlyEligibleLeft(t.executions, p.tables.executions, before, archivedAt)
    && OldestLeft(t.executions, p.tables.executions)
    && Buried(t.executions, p.tables.executions, p.tables.tombstones, archivedAt)
    && (p.more <==> exists e :: Settles(p.tables.executions, e, before))
    && (p.more ==> p.archived == limit)
  }

  /** The first `n` candidate rows, and the records they point at, are gone. */
  ghost predicate Removed(
    before: map<ExecutionId, Record>, after: map<ExecutionId, Record>,
    rows: map<Key, ExecutionId>, left: map<Key, ExecutionId>, keys: seq<Key>)
  {
    && (forall e :: e in after ==> e in before && after[e] == before[e])
    && (forall e :: e in before && e !in after ==>
          KeyIn(Settled, before[e]).Some? && KeyIn(Settled, before[e]).value in keys)
    && |before.Keys - after.Keys| == |keys|
    && (forall k :: k in left <==> k in rows && k !in keys)
  }

  lemma RemoveOneMore(
    before: map<ExecutionId, Record>, after: map<ExecutionId, Record>,
    rows: map<Key, ExecutionId>, left: map<Key, ExecutionId>, keys: seq<Key>, key: Key)
    requires Removed(before, after, rows, left, keys) && key !in keys
    requires key.execution in after && KeyIn(Settled, after[key.execution]) == Some(key)
    ensures Removed(before, after - {key.execution}, rows, left - {key}, keys + [key])
  {
    assert before.Keys - (after - {key.execution}).Keys == (before.Keys - after.Keys) + {key.execution};
  }

  lemma BuryOneMore(
    before: map<ExecutionId, Record>, after: map<ExecutionId, Record>, tombstones: map<ExecutionId, Tombstone>,
    archivedAt: u64, e: ExecutionId)
    requires Buried(before, after, tombstones, archivedAt) && e in before
    ensures Buried(before, after - {e}, tombstones[e := TombstoneOf(before[e], archivedAt)], archivedAt)
  {
    hide Keeps, TombstoneOf;
    TombstoneKeeps(before[e], archivedAt);
  }

  /** A batch under way. */
  ghost predicate Underway(t: Tables, u: Tables, keys: seq<Key>, archivedAt: u64) {
    && OnlyArchived(t, u, |keys|)
    && u.global.archiveGeneration == t.global.archiveGeneration && u.global.lastArchivedAt == t.global.lastArchivedAt
    && Removed(t.executions, u.executions, t.terminal, u.terminal, keys)
    && Buried(t.executions, u.executions, u.tombstones, archivedAt)
  }

  lemma UnderwayStep(t: Tables, u: Tables, v: Tables, keys: seq<Key>, key: Key, archivedAt: u64)
    requires Underway(t, u, keys, archivedAt) && key !in keys
    requires key.execution in u.executions && KeyIn(Settled, u.executions[key.execution]) == Some(key)
    requires Compacted(u, v, key.execution, TombstoneOf(u.executions[key.execution], archivedAt))
    ensures Underway(t, v, keys + [key], archivedAt)
  {
    hide TombstoneOf, Removed, Buried;
    var e := key.execution;
    assert e in t.executions && t.executions[e] == u.executions[e] by {
      RemovedKeepsOthers(t, u, keys, e);
    }
    assert Key(SettledAt(u.executions[e]), e) == key by {
      assert KeyIn(Settled, u.executions[e]).Some?;
    }
    RemoveOneMore(t.executions, u.executions, t.terminal, u.terminal, keys, key);
    BuryOneMore(t.executions, u.executions, u.tombstones, archivedAt, e);
  }

  lemma RemovedKeepsOthers(t: Tables, u: Tables, keys: seq<Key>, e: ExecutionId)
    requires Removed(t.executions, u.executions, t.terminal, u.terminal, keys) && e in u.executions
    ensures e in t.executions && t.executions[e] == u.executions[e]
  {
  }

  /** A settled execution that stayed was not among the rows removed. */
  lemma StayedBehind(t: Tables, u: Tables, keys: seq<Key>, n: nat, e: ExecutionId)
    requires n <= |keys| && Leads(t.terminal, keys)
    requires Consistent(u) && Removed(t.executions, u.executions, t.terminal, u.terminal, keys[..n])
    requires e in u.executions && !u.executions[e].phase.IsActive()
    ensures var k := Key(SettledAt(u.executions[e]), e);
            && k in t.terminal && k !in keys[..n]
            && (forall i :: 0 <= i < n ==> KeyBelow(keys[i], k))
            && (n < |keys| ==> k == keys[n] || KeyBelow(keys[n], k))
  {
    hide Consistent, Removed;
    SettledOrQueuedRow(u, e);
    var k := Key(SettledAt(u.executions[e]), e);
    assert k in t.terminal && k !in keys[..n] by {
      LeftRows(t, u, keys[..n], k);
    }
    assert forall j :: 0 <= j < n ==> keys[j] in keys[..n];
  }

  lemma LeftRows(t: Tables, u: Tables, keys: seq<Key>, k: Key)
    requires Removed(t.executions, u.executions, t.terminal, u.terminal, keys)
    ensures k in u.terminal <==> k in t.terminal && k !in keys
  {
  }

  /** Why the loop may stop where it does. */
  ghost predicate StoppedAt(rows: map<Key, ExecutionId>, keys: seq<Key>, n: nat, before: u64, archivedAt: u64, limit: u32, more: bool) {
    && Leads(rows, keys) && n <= |keys| <= limit + 1 && n <= limit
    && (|keys| <= limit ==> forall k :: k in rows ==> k in keys)
    && (forall i :: 0 <= i < n ==> keys[i].number <= before && keys[i].number <= archivedAt)
    && (n < |keys| ==> keys[n].number > before || n == limit)
    && (more <==> n < |keys| && keys[n].number <= before)
  }

  lemma NothingEligibleLeft(t: Tables, u: Tables, keys: seq<Key>, n: nat, before: u64, archivedAt: u64, limit: u32, more: bool)
    requires StoppedAt(t.terminal, keys, n, before, archivedAt, limit, more)
    requires Consistent(u) && Removed(t.executions, u.executions, t.terminal, u.terminal, keys[..n])
    ensures more <==> exists e :: Settles(u.executions, e, before)
    ensures more ==> n == limit
  {
    hide Consistent, Removed;
    if more {
      assert keys[n] !in keys[..n];
      LeftRows(t, u, keys[..n], keys[n]);
      RowOwner(u, keys[n], Settled);
      assert Settles(u.executions, keys[n].execution, before);
    }
    assert n == |keys| ==> keys[..n] == keys;
    forall e | Settles(u.executions, e, before)
      ensures more
    {
      StayedBehind(t, u, keys, n, e);
    }
  }

  lemma EachWasEligible(t: Tables, u: Tables, keys: seq<Key>, e: ExecutionId)
    requires Removed(t.executions, u.executions, t.terminal, u.terminal, keys)
    requires e in Gone(t.executions, u.executions) && t.executions[e].execution == e
    ensures !t.executions[e].phase.IsActive() && Key(SettledAt(t.executions[e]), e) in keys
  {
    assert KeyIn(Settled, t.executions[e]).value in keys;
  }

  lemma RemovedSize(t: Tables, u: Tables, keys: seq<Key>)
    requires Removed(t.executions, u.executions, t.terminal, u.terminal, keys)
    ensures |Gone(t.executions, u.executions)| == |keys|
  {
  }

  lemma BatchWasEligible(t: Tables, u: Tables, keys: seq<Key>, n: nat, before: u64, archivedAt: u64, limit: u32, more: bool)
    requires StoppedAt(t.terminal, keys, n, before, archivedAt, limit, more)
    requires Consistent(t) && Removed(t.executions, u.executions, t.terminal, u.terminal, keys[..n])
    ensures OnlyEligibleLeft(t.executions, u.executions, before, archivedAt)
  {
    hide Consistent, Removed, Leads;
    forall e | e in u.executions
      ensures e in t.executions && u.executions[e] == t.executions[e]
    {
      RemovedKeepsOthers(t, u, keys[..n], e);
    }
    forall e | e in Gone(t.executions, u.executions)
      ensures Settles(t.executions, e, before) && Settles(t.executions, e, archivedAt)
    {
      HotExecutionFinds(t, e);
      EachWasEligible(t, u, keys[..n], e);
    }
  }

  lemma BatchWasOldest(t: Tables, u: Tables, keys: seq<Key>, n: nat)
    requires Leads(t.terminal, keys) && n <= |keys|
    requires Consistent(t) && Consistent(u) && Removed(t.executions, u.executions, t.terminal, u.terminal, keys[..n])
    ensures OldestLeft(t.executions, u.executions)
  {
    hide Consistent, Removed, Leads, KeyBelow;
    forall d, e | d in Gone(t.executions, u.executions) && e in u.executions && !u.executions[e].phase.IsActive()
      ensures KeyBelow(Key(SettledAt(t.executions[d]), d), Key(SettledAt(u.executions[e]), e))
    {
      HotExecutionFinds(t, d);
      EachWasEligible(t, u, keys[..n], d);
      StayedBehind(t, u, keys, n, e);
    }
  }

  lemma BatchSummary(t: Tables, u: Tables, keys: seq<Key>, n: nat, before: u64, archivedAt: u64, limit: u32, more: bool)
    requires StoppedAt(t.terminal, keys, n, before, archivedAt, limit, more)
    requires Consistent(t) && Consistent(u) && Underway(t, u, keys[..n], archivedAt)
    ensures ArchivedBatch(t, Page(u, n, more), before, archivedAt, limit)
  {
    hide Consistent, Removed, OnlyArchived, OnlyEligibleLeft, OldestLeft, Buried, Leads, Settles;
    RemovedSize(t, u, keys[..n]);
    BatchWasEligible(t, u, keys, n, before, archivedAt, limit, more);
    BatchWasOldest(t, u, keys, n);
    NothingEligibleLeft(t, u, keys, n, before, archivedAt, limit, more);
  }

  /** One turn of the archival loop. */
  method ArchiveNext(t: Tables, u: Tables, keys: seq<Key>, n: nat, archivedAt: u64) returns (result: Result<Tables, Error>)
    requires Consistent(t) && Consistent(u) && Evolves(t, u) && archivedAt != 0
    requires Leads(t.terminal, keys) && n < |keys| && Underway(t, u, keys[..n], archivedAt)
    ensures result.Ok? ==>
              && Consistent(result.value) && Evolves(t, result.value) && Underway(t, result.value, keys[..n + 1], archivedAt)
              && keys[n].number <= archivedAt
    ensures t.global.tombstones + n <= U64_MAX
    ensures result.Ok? <==> keys[n].number <= archivedAt && t.global.tombstones + n < U64_MAX
    ensures result.Err? ==> result.error == if keys[n].number <= archivedAt then EXHAUSTED else INCONSISTENT
    ensures keys[n].execution in t.executions && KeyIn(Settled, t.executions[keys[n].execution]) == Some(keys[n])
  {
    hide Consistent, Evolves, Underway, Leads, TombstoneOf, Compacted, KeyIn;
    var key := keys[n];
    NextRowWaits(t, u, keys, n, archivedAt);
    RowOwner(t, key, Settled);
    var moved := ArchiveOne(u, key, archivedAt);
    if moved.Err? { return moved; }
    EvolvesThrough(t, u, moved.value);
    UnderwayStep(t, u, moved.value, keys[..n], key, archivedAt);
    assert keys[..n + 1] == keys[..n] + [key];
    return moved;
  }

  /** Archives the oldest settled executions, up to a boundary and a batch size. Tables that
      contradict each other are never reported, except for an outcome between the archival time
      and a boundary that lies after it. */
  method ArchiveEligible(t: Tables, before: u64, archivedAt: u64, limit: u32) returns (result: Result<Page, Error>)
    requires Consistent(t)
    ensures result.Ok? ==>
              && Consistent(result.value.tables) && Evolves(t, result.value.tables)
              && ArchivedBatch(t, result.value, before, archivedAt, limit)
              && result.value.archived == BatchSize(t, before, archivedAt, limit)
    ensures result.Err? <==> ArchiveRefusal(t, before, archivedAt, limit).Some?
    ensures result.Err? ==> result.error == ArchiveRefusal(t, before, archivedAt, limit).value
  {
    hide Consistent, Evolves, Underway, Leads, ArchivedBatch, ArchiveRefusal, BatchSize;
    if before == 0 || archivedAt == 0 || limit == 0 {
      RefusedArguments(t, before, archivedAt, limit);
      return Err(Invalid);
    }
    var keys := Take(t.terminal, limit + 1);
    var write := t;
    var archived: u32 := 0;
    var more := false;
    Unchanged(t);
    UnderwayStart(t, archivedAt);
    assert keys[..0] == [];
    while archived < |keys|
      invariant archived <= |keys| && archived <= limit && !more
      invariant Consistent(write) && Evolves(t, write) && Underway(t, write, keys[..archived], archivedAt)
      invariant forall i :: 0 <= i < archived ==> keys[i].number <= before && keys[i].number <= archivedAt
    {
      if keys[archived].number > before { break; }
      if archived >= limit {
        more := true;
        break;
      }
      var moved := ArchiveNext(t, write, keys, archived, archivedAt);
      if moved.Err? {
        RefusedAt(t, keys, archived, before, archivedAt, limit);
        return Err(moved.error);
      }
      write := moved.value;
      archived := archived + 1;
    }
    BatchSummary(t, write, keys, archived, before, archivedAt, limit, more);
    UnderwayCounts(t, write, keys[..archived], archivedAt);
    WholeBatch(t, keys, archived, before, archivedAt, limit, more);
    if archived > 0 {
      if write.global.archiveGeneration == U64_MAX { return Err(EXHAUSTED); }
      var stamped := write.(global := write.global.(
        archiveGeneration := write.global.archiveGeneration + 1, lastArchivedAt := Some(archivedAt)));
      StampKeeps(t, write, stamped, archived, more, before, archivedAt, limit);
      write := stamped;
    }
    return Ok(Page(write, archived, more));
  }

  lemma RefusedArguments(t: Tables, before: u64, archivedAt: u64, limit: u32)
    requires before == 0 || archivedAt == 0 || limit == 0
    ensures ArchiveRefusal(t, before, archivedAt, limit) == Some(Invalid)
  {
  }

  /** A row that cannot be moved refuses the whole batch for the stated reason. */
  lemma RefusedAt(t: Tables, keys: seq<Key>, n: nat, before: u64, archivedAt: u64, limit: u32)
    requires Consistent(t) && Leads(t.terminal, keys) && n < |keys| && n < limit && before != 0 && archivedAt != 0
    requires forall i :: 0 <= i < n ==> keys[i].number <= before && keys[i].number <= archivedAt
    requires keys[n].number <= before && t.global.tombstones + n <= U64_MAX
    requires !(keys[n].number <= archivedAt && t.global.tombstones + n < U64_MAX)
    ensures ArchiveRefusal(t, before, archivedAt, limit) == Some(if keys[n].number <= archivedAt then EXHAUSTED else INCONSISTENT)
  {
    hide Consistent, Settles, SettledBy, RowsUpTo;
    var bound := Earlier(before, archivedAt);
    RowsOfSettled(t, bound);
    if keys[n].number <= archivedAt {
      LeadersUpTo(t.terminal, keys, n + 1, bound);
    } else {
      LeadersUpTo(t.terminal, keys, n, bound);
      assert Settles(t.executions, keys[n].execution, before) by { LateRow(t, keys[n], before, archivedAt); }
      assert !Settles(t.executions, keys[n].execution, archivedAt) by { LateRow(t, keys[n], before, archivedAt); }
    }
  }

  lemma LateRow(t: Tables, key: Key, before: u64, archivedAt: u64)
    requires Consistent(t) && key in t.terminal && archivedAt < key.number <= before
    ensures Settles(t.executions, key.execution, before) && !Settles(t.executions, key.execution, archivedAt)
  {
    hide Consistent;
    RowOwner(t, key, Settled);
    HotExecutionFinds(t, key.execution);
  }

  /** A loop that stopped by itself moved all that could be moved, and met no late outcome. */
  lemma WholeBatch(t: Tables, keys: seq<Key>, n: nat, before: u64, archivedAt: u64, limit: u32, more: bool)
    requires Consistent(t) && before != 0 && archivedAt != 0 && limit != 0 && t.global.tombstones + n <= U64_MAX
    requires StoppedAt(t.terminal, keys, n, before, archivedAt, limit, more)
    ensures BatchSize(t, before, archivedAt, limit) == n
    ensures ArchiveRefusal(t, before, archivedAt, limit)
            == if n > 0 && t.global.archiveGeneration == U64_MAX then Some(EXHAUSTED) else None
  {
    hide Consistent, LateOutcome, SettledBy, StoppedAt, Earlier;
    StoppedWithAll(t, keys, n, before, archivedAt, limit, more);
  }

  lemma StoppedWithAll(t: Tables, keys: seq<Key>, n: nat, before: u64, archivedAt: u64, limit: u32, more: bool)
    requires Consistent(t) && StoppedAt(t.terminal, keys, n, before, archivedAt, limit, more)
    ensures n <= limit && n <= |SettledBy(t.executions, Earlier(before, archivedAt))|
    ensures n < limit ==> n == |SettledBy(t.executions, Earlier(before, archivedAt))| && !LateOutcome(t, before, archivedAt)
  {
    hide Consistent, Settles, SettledBy, RowsUpTo, Leads, LateOutcome, KeySet;
    var bound := Earlier(before, archivedAt);
    assert |RowsUpTo(t.terminal, bound)| == |SettledBy(t.executions, bound)| by { RowsOfSettled(t, bound); }
    LeadersUpTo(t.terminal, keys, n, bound);
    if n < limit {
      LeadersUpTo(t.terminal, keys, n, before);
      NoLateRow(t, keys[..n], before, archivedAt);
      LeadersWithin(t.terminal, keys[..n], before, bound);
    }
  }

  lemma UnderwayCounts(t: Tables, u: Tables, keys: seq<Key>, archivedAt: u64)
    requires Underway(t, u, keys, archivedAt)
    ensures u.global.tombstones == t.global.tombstones + |keys| && u.global.archiveGeneration == t.global.archiveGeneration
  {
  }

  lemma LeadersWithin(rows: map<Key, ExecutionId>, keys: seq<Key>, before: u64, bound: u64)
    requires RowsUpTo(rows, before) == KeySet(keys) && bound <= before && forall i :: 0 <= i < |keys| ==> keys[i].number <= bound
    ensures RowsUpTo(rows, bound) == RowsUpTo(rows, before)
  {
    forall k | k in RowsUpTo(rows, before)
      ensures k.number <= bound
    {
      assert k in keys;
    }
  }

  lemma NoLateRow(t: Tables, keys: seq<Key>, before: u64, archivedAt: u64)
    requires Consistent(t) && RowsUpTo(t.terminal, before) == KeySet(keys)
    requires forall i :: 0 <= i < |keys| ==> keys[i].number <= archivedAt
    ensures !LateOutcome(t, before, archivedAt)
  {
    hide Consistent;
    RowsOfSettled(t, before);
    forall e | Settles(t.executions, e, before)
      ensures Settles(t.executions, e, archivedAt)
    {
      var k :| k in RowsUpTo(t.terminal, before) && k.execution == e;
      assert k in keys && Settles(t.executions, k.execution, k.number);
    }
  }

  lemma UnderwayStart(t: Tables, archivedAt: u64)
    ensures Underway(t, t, [], archivedAt)
  {
    assert t.executions.Keys - t.executions.Keys == {};
  }

  lemma NextRowWaits(t: Tables, u: Tables, keys: seq<Key>, n: nat, archivedAt: u64)
    requires Leads(t.terminal, keys) && n < |keys| && Underway(t, u, keys[..n], archivedAt)
    ensures keys[n] in u.terminal && keys[n] !in keys[..n] && keys[n] in t.terminal
    ensures u.global.tombstones == t.global.tombstones + n
  {
  }

  /** The closing stamp of a batch touches two counters only. */
  lemma StampKeeps(t: Tables, u: Tables, v: Tables, archived: u32, more: bool, before: u64, archivedAt: u64, limit: u32)
    requires Consistent(u) && Evolves(t, u) && ArchivedBatch(t, Page(u, archived, more), before, archivedAt, limit)
    requires u.global.archiveGeneration < U64_MAX
    requires v == u.(global := u.global.(archiveGeneration := u.global.archiveGeneration + 1, lastArchivedAt := Some(archivedAt)))
    ensures Consistent(v) && Evolves(t, v) && ArchivedBatch(t, Page(v, archived, more), before, archivedAt, limit)
  {
    hide Consistent, Evolves, OnlyEligibleLeft, OldestLeft, Buried, Settles, Gone;
    GateRowsOwned(u);
    GateKeepsConsistent(u, v);
    EvolvesThrough(t, u, v);
  }
}
