/** The whole-store integrity check, what it accepts, and what follows from its acceptance. */
module PeerIntegrity {
  import opened Prelude
  import opened PeerTypes
  import opened PeerTables
  import opened PeerEvolution
  import opened PeerTransaction
  import opened PeerCommit

  // ---- One hot record ----

  /** A log row and its artifact row agree with the document the digest was linked over. */
  ghost predicate RowStored(t: Tables, r: Record, n: u64)
    requires 1 <= n <= |r.History()|
  {
    var key := Key(n, r.execution);
    && key in t.observations && t.observations[key] == r.History()[n - 1]
    && r.History()[n - 1].execution == r.execution && r.History()[n - 1].sequence == n
    && (r.History()[n - 1].event.Output? <==> key in t.artifacts)
    && (r.History()[n - 1].event.Output? ==> t.artifacts[key] == r.History()[n - 1].event.artifact)
  }

  ghost predicate LogStored(t: Tables, r: Record) {
    && |r.History()| == r.lastSequence
    && (forall n: u64 :: 1 <= n <= r.lastSequence ==> RowStored(t, r, n))
    && |Outputs(r.History())| == r.accounting.outputs
  }

  /** A row holds a document of this execution and number, with its artifact row. */
  predicate RowGood(t: Tables, execution: ExecutionId, n: u64) {
    var key := Key(n, execution);
    && key in t.observations
    && t.observations[key].execution == execution && t.observations[key].sequence == n
    && (t.observations[key].event.Output? <==> key in t.artifacts)
    && (t.observations[key].event.Output? ==> t.artifacts[key] == t.observations[key].event.artifact)
  }

  /** Recomputes the digest and the outputs of a log from its rows. */
  method CheckLog(t: Tables, r: Record) returns (ok: bool)
    ensures ok <==> LogStored(t, r)
  {
    var digest := Genesis;
    var outputs: nat := 0;
    ghost var rows: seq<Observation> := [];
    var sequence: u64 := 0;
    while sequence < r.lastSequence
      invariant sequence <= r.lastSequence && |rows| == sequence
      invariant forall n: u64 :: 1 <= n <= sequence ==> RowGood(t, r.execution, n) && rows[n - 1] == t.observations[Key(n, r.execution)]
      invariant digest == Chain(rows) && outputs == |Outputs(rows)|
    {
      if !RowGood(t, r.execution, sequence + 1) {
        StoredRowIsGood(t, r, sequence + 1);
        return false;
      }
      var o := t.observations[Key(sequence + 1, r.execution)];
      AppendedLog(rows, o);
      assert (rows + [o])[..|rows|] == rows;
      digest := Link(digest, o);
      if o.event.Output? {
        outputs := outputs + 1;
      }
      rows := rows + [o];
      sequence := sequence + 1;
    }
    LogOfChain(rows);
    if outputs != r.accounting.outputs || digest != r.digest {
      DigestMismatch(t, r, rows);
      return false;
    }
    return true;
  }

  lemma StoredRowIsGood(t: Tables, r: Record, n: u64)
    requires 1 <= n <= r.lastSequence
    ensures LogStored(t, r) ==> RowGood(t, r.execution, n)
  {
    assert LogStored(t, r) ==> RowStored(t, r, n);
  }

  lemma DigestMismatch(t: Tables, r: Record, rows: seq<Observation>)
    requires |rows| == r.lastSequence
    requires forall n: u64 :: 1 <= n <= r.lastSequence ==> RowGood(t, r.execution, n) && rows[n - 1] == t.observations[Key(n, r.execution)]
    ensures LogStored(t, r) ==> rows == r.History() && Chain(rows) == r.digest && |Outputs(rows)| == r.accounting.outputs
  {
    if LogStored(t, r) {
      forall i | 0 <= i < |rows|
        ensures rows[i] == r.History()[i]
      {
        assert RowStored(t, r, i + 1);
      }
      assert rows == r.History();
      ChainOfLog(r.digest);
    }
  }

  /** A hot record, its ownership rows, its log and its index row. */
  ghost predicate HotRowGood(t: Tables, e: ExecutionId)
    requires e in t.executions
  {
    var r := t.executions[e];
    && RecordValid(r) && r.execution == e
    && e in t.locations && t.locations[e] == HotLocation && e !in t.tombstones
    && HotRequestKey(r) in t.byRequest && t.byRequest[HotRequestKey(r)] == e
    && LogStored(t, r)
    && IndexRowGood(t, r)
  }

  predicate IndexRowGood(t: Tables, r: Record) {
    && !(r.phase.CancellationRequested? && r.phase.claim.None? && r.phase.evidence.Some?)
    && RowPoints(t.available, KeyIn(Available, r), r.execution)
    && RowPoints(t.claims, KeyIn(Claims, r), r.execution)
    && RowPoints(t.terminal, KeyIn(Settled, r), r.execution)
  }

  predicate RowPoints(rows: map<Key, ExecutionId>, key: Option<Key>, e: ExecutionId) {
    key.Some? ==> key.value in rows && rows[key.value] == e
  }

  method CheckHot(t: Tables, e: ExecutionId) returns (ok: bool)
    requires e in t.executions
    ensures ok <==> HotRowGood(t, e)
  {
    hide LogStored, RecordValid, KeyIn;
    var r := t.executions[e];
    if !RecordValid(r) { return false; }
    if e != r.execution || e !in t.locations || t.locations[e] != HotLocation || e in t.tombstones { return false; }
    if HotRequestKey(r) !in t.byRequest || t.byRequest[HotRequestKey(r)] != e { return false; }
    var logged := CheckLog(t, r);
    if !logged { return false; }
    return IndexRowGood(t, r);
  }

  predicate TombstoneRowGood(t: Tables, e: ExecutionId)
    requires e in t.tombstones
  {
    var d := t.tombstones[e];
    && TombstoneValid(d) && d.execution == e
    && e in t.locations && t.locations[e] == ArchivedLocation && e !in t.executions
    && ArchivedRequestKey(d) in t.byRequest && t.byRequest[ArchivedRequestKey(d)] == e
    && (d.lastSequence > 0 ==> Key(d.lastSequence, e) !in t.observations && Key(d.lastSequence, e) !in t.artifacts)
  }

  // ---- The tally of the hot loop ----

  /** The phases the check counts as queued: a cancellation claimed before entry is not one. */
  predicate ListedAsQueued(phase: Phase) {
    phase.IsPreEntry() && !HalfClaimed(phase)
  }

  /** Claimed after a cancellation that came before adapter entry. */
  predicate HalfClaimed(phase: Phase) {
    phase.CancellationRequested? && phase.claim.Some? && phase.evidence.None?
  }

  /** What the hot loop counts. */
  datatype Kind = ActiveFor(caller: CallerId) | Queued | NoLongerActive | IndexedIn(index: Index)

  predicate IsA(kind: Kind, r: Record) {
    match kind
    case ActiveFor(caller) => r.phase.IsActive() && r.caller == caller
    case Queued => ListedAsQueued(r.phase)
    case NoLongerActive => !r.phase.IsActive()
    case IndexedIn(index) => KeyIn(index, r).Some?
  }

  ghost function Members(executions: map<ExecutionId, Record>, done: set<ExecutionId>, kind: Kind): set<ExecutionId> {
    set e | e in done && e in executions && IsA(kind, executions[e])
  }

  lemma OneMoreMember(executions: map<ExecutionId, Record>, done: set<ExecutionId>, kind: Kind, e: ExecutionId)
    requires e in executions && e !in done
    ensures |Members(executions, done + {e}, kind)| == |Members(executions, done, kind)| + Unit(IsA(kind, executions[e]))
  {
    if IsA(kind, executions[e]) {
      assert Members(executions, done + {e}, kind) == Members(executions, done, kind) + {e};
    } else {
      assert Members(executions, done + {e}, kind) == Members(executions, done, kind);
    }
  }

  /** The rows of a table that belong to a log of `done`. */
  ghost function OwnedRows<T>(rows: map<Key, T>, executions: map<ExecutionId, Record>, done: set<ExecutionId>): set<Key> {
    set k | k in rows && k.execution in done && k.execution in executions && 1 <= k.number <= executions[k.execution].lastSequence
  }

  ghost function RowsUpTo<T>(rows: map<Key, T>, e: ExecutionId, n: nat): set<Key> {
    set k | k in rows && k.execution == e && 1 <= k.number <= n
  }

  lemma {:induction false} LogRowsCounted(t: Tables, r: Record, n: u64)
    requires LogStored(t, r) && n <= r.lastSequence
    ensures |RowsUpTo(t.observations, r.execution, n)| == n
  {
    if n == 0 {
      assert RowsUpTo(t.observations, r.execution, 0) == {};
    } else {
      LogRowsCounted(t, r, n - 1);
      assert RowStored(t, r, n);
      assert RowsUpTo(t.observations, r.execution, n) == RowsUpTo(t.observations, r.execution, n - 1) + {Key(n, r.execution)};
    }
  }

  lemma ArtifactRow(t: Tables, r: Record, n: u64)
    requires LogStored(t, r) && 1 <= n <= r.lastSequence
    ensures RowsUpTo(t.artifacts, r.execution, n)
            == RowsUpTo(t.artifacts, r.execution, n - 1) + (if r.History()[n - 1].event.Output? then {Key(n, r.execution)} else {})
  {
    assert RowStored(t, r, n);
  }

  lemma {:induction false} ArtifactRowsCounted(t: Tables, r: Record, n: u64)
    requires LogStored(t, r) && n <= r.lastSequence
    ensures |RowsUpTo(t.artifacts, r.execution, n)| == |Outputs(r.History()[..n])|
  {
    if n == 0 {
      assert RowsUpTo(t.artifacts, r.execution, 0) == {};
    } else {
      ArtifactRowsCounted(t, r, n - 1);
      ArtifactRow(t, r, n);
      var last := r.History()[n - 1];
      assert r.History()[..n] == r.History()[..n - 1] + [last];
      AppendedLog(r.History()[..n - 1], last);
      hide LogStored, Outputs;
    }
  }

  lemma OneMoreLog(t: Tables, done: set<ExecutionId>, e: ExecutionId)
    requires e in t.executions && e !in done && t.executions[e].execution == e && LogStored(t, t.executions[e])
    ensures |OwnedRows(t.observations, t.executions, done + {e})|
            == |OwnedRows(t.observations, t.executions, done)| + t.executions[e].lastSequence
    ensures |OwnedRows(t.artifacts, t.executions, done + {e})|
            == |OwnedRows(t.artifacts, t.executions, done)| + t.executions[e].accounting.outputs
  {
    var r := t.executions[e];
    LogRowsCounted(t, r, r.lastSequence);
    ArtifactRowsCounted(t, r, r.lastSequence);
    assert r.History()[..r.lastSequence] == r.History();
    OneMoreOwner(t.observations, t.executions, done, e);
    OneMoreOwner(t.artifacts, t.executions, done, e);
  }

  lemma OneMoreOwner<T>(rows: map<Key, T>, executions: map<ExecutionId, Record>, done: set<ExecutionId>, e: ExecutionId)
    requires e in executions && e !in done
    ensures |OwnedRows(rows, executions, done + {e})|
            == |OwnedRows(rows, executions, done)| + |RowsUpTo(rows, e, executions[e].lastSequence)|
  {
    assert OwnedRows(rows, executions, done + {e})
        == OwnedRows(rows, executions, done) + RowsUpTo(rows, e, executions[e].lastSequence);
  }

  datatype Tally = Tally(
    activeByCaller: map<CallerId, nat>,
    queued: nat, settled: nat, available: nat, claims: nat, observations: nat, artifacts: nat)

  const NOTHING: Tally := Tally(map[], 0, 0, 0, 0, 0, 0)

  /** One turn of the counting loop. */
  function Counted(tally: Tally, r: Record): Tally {
    Tally(
      if r.phase.IsActive() then
        tally.activeByCaller[r.caller := (if r.caller in tally.activeByCaller then tally.activeByCaller[r.caller] else 0) + 1]
      else tally.activeByCaller,
      tally.queued + (if ListedAsQueued(r.phase) then 1 else 0),
      tally.settled + (if r.phase.IsActive() then 0 else 1),
      tally.available + (if KeyIn(Available, r).Some? then 1 else 0),
      tally.claims + (if KeyIn(Claims, r).Some? then 1 else 0),
      tally.observations + r.lastSequence,
      tally.artifacts + r.accounting.outputs)
  }

  ghost predicate CallersTallied(activeByCaller: map<CallerId, nat>, executions: map<ExecutionId, Record>, done: set<ExecutionId>) {
    forall c ::
      && (if c in activeByCaller then activeByCaller[c] else 0) == |Members(executions, done, ActiveFor(c))|
      && (c in activeByCaller ==> activeByCaller[c] > 0)
  }

  ghost predicate Tallied(t: Tables, done: set<ExecutionId>, tally: Tally) {
    && CallersTallied(tally.activeByCaller, t.executions, done)
    && tally.queued == |Members(t.executions, done, Queued)|
    && tally.settled == |Members(t.executions, done, NoLongerActive)|
    && tally.available == |Members(t.executions, done, IndexedIn(Available))|
    && tally.claims == |Members(t.executions, done, IndexedIn(Claims))|
    && tally.observations == |OwnedRows(t.observations, t.executions, done)|
    && tally.artifacts == |OwnedRows(t.artifacts, t.executions, done)|
  }

  lemma TallyStart(t: Tables)
    ensures Tallied(t, {}, NOTHING)
  {
    assert forall kind :: Members(t.executions, {}, kind) == {};
    assert OwnedRows(t.observations, t.executions, {}) == {};
    assert OwnedRows(t.artifacts, t.executions, {}) == {};
  }

  lemma CallersStep(activeByCaller: map<CallerId, nat>, executions: map<ExecutionId, Record>, done: set<ExecutionId>, e: ExecutionId)
    requires e in executions && e !in done && CallersTallied(activeByCaller, executions, done)
    ensures CallersTallied(Counted(NOTHING.(activeByCaller := activeByCaller), executions[e]).activeByCaller, executions, done + {e})
  {
    forall c
      ensures |Members(executions, done + {e}, ActiveFor(c))| == |Members(executions, done, ActiveFor(c))| + Unit(IsA(ActiveFor(c), executions[e]))
    {
      OneMoreMember(executions, done, ActiveFor(c), e);
    }
    hide Members;
  }

  lemma TallyStep(t: Tables, done: set<ExecutionId>, tally: Tally, e: ExecutionId)
    requires e in t.executions && e !in done && HotRowGood(t, e) && Tallied(t, done, tally)
    ensures Tallied(t, done + {e}, Counted(tally, t.executions[e]))
  {
    hide Members, OwnedRows, CallersTallied, LogStored, KeyIn;
    CallersStep(tally.activeByCaller, t.executions, done, e);
    OneMoreMember(t.executions, done, Queued, e);
    OneMoreMember(t.executions, done, NoLongerActive, e);
    OneMoreMember(t.executions, done, IndexedIn(Available), e);
    OneMoreMember(t.executions, done, IndexedIn(Claims), e);
    OneMoreLog(t, done, e);
  }

  // ---- The whole check ----

  predicate RequestRowGood(t: Tables, k: RequestKey)
    requires k in t.byRequest
  {
    var found := ReadSnapshot(t, t.byRequest[k]);
    && found.Ok? && found.value.Some?
    && RequestKey(found.value.value.CallerOf(), found.value.value.RequestIdOf()) == k
  }

  predicate LocationRowGood(t: Tables, e: ExecutionId)
    requires e in t.locations
  {
    var found := ReadSnapshot(t, e);
    found.Ok? && found.value.Some? && (found.value.value.Hot? <==> t.locations[e] == HotLocation)
  }

  /** Every counter and table size is what the records call for, except that the queued counter is
      compared with the phases the check lists as queued. */
  ghost predicate CountsMatch(t: Tables) {
    var all := t.executions.Keys;
    && t.global.active == |ActiveSet(t.executions)|
    && t.global.dispatchQueued == |Members(t.executions, all, Queued)|
    && t.global.hotTerminal == |Members(t.executions, all, NoLongerActive)|
    && t.global.tombstones == |t.tombstones|
    && |t.available| == |Members(t.executions, all, IndexedIn(Available))|
    && |t.claims| == |Members(t.executions, all, IndexedIn(Claims))|
    && |t.terminal| == |Members(t.executions, all, NoLongerActive)|
    && |t.observations| == |OwnedRows(t.observations, t.executions, all)|
    && |t.artifacts| == |OwnedRows(t.artifacts, t.executions, all)|
    && |t.executions| == t.global.active + t.global.hotTerminal
    && |t.locations| == |t.executions| + |t.tombstones|
    && |t.byRequest| == |t.locations|
  }

  ghost predicate CallersMatch(t: Tables) {
    forall c {:trigger ActiveSetOf(t.executions, c)} :: PeerActive(t.peers, c) == |ActiveSetOf(t.executions, c)|
  }

  /** Exactly what the integrity check accepts. */
  ghost predicate Verified(t: Tables) {
    && GatesSound(t.relationships, t.catalogs) && CountersReadable(t.global)
    && (forall e :: e in t.executions ==> HotRowGood(t, e))
    && (forall e :: e in t.tombstones ==> TombstoneRowGood(t, e))
    && CountsMatch(t)
    && (forall k :: k in t.byRequest ==> RequestRowGood(t, k))
    && (forall e :: e in t.locations ==> LocationRowGood(t, e))
    && CallersMatch(t)
  }

  lemma AllMembers(executions: map<ExecutionId, Record>)
    ensures Members(executions, executions.Keys, NoLongerActive) == SettledSet(executions)
    ensures forall c :: Members(executions, executions.Keys, ActiveFor(c)) == ActiveSetOf(executions, c)
  {
  }

  function TallyFor(activeByCaller: map<CallerId, nat>, c: CallerId): nat {
    if c in activeByCaller then activeByCaller[c] else 0
  }

  lemma TallyIsCount(activeByCaller: map<CallerId, nat>, executions: map<ExecutionId, Record>)
    requires CallersTallied(activeByCaller, executions, executions.Keys)
    ensures forall c {:trigger ActiveSetOf(executions, c)} :: |ActiveSetOf(executions, c)| == TallyFor(activeByCaller, c)
    ensures forall c :: c in activeByCaller ==> activeByCaller[c] > 0
  {
    forall c
      ensures |ActiveSetOf(executions, c)| == TallyFor(activeByCaller, c)
    {
      assert Members(executions, executions.Keys, ActiveFor(c)) == ActiveSetOf(executions, c);
    }
  }

  lemma EveryActiveIsTallied(activeByCaller: map<CallerId, nat>, executions: map<ExecutionId, Record>)
    requires CallersTallied(activeByCaller, executions, executions.Keys)
    ensures ActiveOf(executions, activeByCaller.Keys) == ActiveSet(executions)
  {
    TallyIsCount(activeByCaller, executions);
    forall e | e in ActiveSet(executions)
      ensures executions[e].caller in activeByCaller
    {
      assert e in ActiveSetOf(executions, executions[e].caller);
    }
  }

  lemma SumStep(activeByCaller: map<CallerId, nat>, executions: map<ExecutionId, Record>, rest: set<CallerId>, c: CallerId)
    requires CallersTallied(activeByCaller, executions, executions.Keys) && c in rest && rest <= activeByCaller.Keys
    ensures |ActiveOf(executions, activeByCaller.Keys - (rest - {c}))|
            == |ActiveOf(executions, activeByCaller.Keys - rest)| + activeByCaller[c]
  {
    TallyIsCount(activeByCaller, executions);
    OneCallerApart(executions, activeByCaller.Keys - (rest - {c}), c);
    assert activeByCaller.Keys - (rest - {c}) - {c} == activeByCaller.Keys - rest;
  }

  /** The sum of the per-caller tallies is the number of active records. */
  method SumCallers(activeByCaller: map<CallerId, nat>, ghost executions: map<ExecutionId, Record>) returns (total: nat)
    requires CallersTallied(activeByCaller, executions, executions.Keys)
    ensures total == |ActiveSet(executions)|
  {
    hide CallersTallied, ActiveSet;
    EveryActiveIsTallied(activeByCaller, executions);
    total := 0;
    var rest := activeByCaller.Keys;
    assert ActiveOf(executions, activeByCaller.Keys - rest) == {};
    hide ActiveOf;
    while rest != {}
      invariant rest <= activeByCaller.Keys
      invariant total == |ActiveOf(executions, activeByCaller.Keys - rest)|
      decreases |rest|
    {
      var c :| c in rest;
      SumStep(activeByCaller, executions, rest, c);
      total := total + activeByCaller[c];
      rest := rest - {c};
    }
    assert activeByCaller.Keys - rest == activeByCaller.Keys;
  }

  /** Counts the hot records after checking each. */
  method TallyHot(t: Tables) returns (ok: bool, tally: Tally)
    ensures ok <==> forall e :: e in t.executions ==> HotRowGood(t, e)
    ensures ok ==> Tallied(t, t.executions.Keys, tally)
  {
    hide HotRowGood, Tallied, Counted;
    var rest := t.executions.Keys;
    ghost var done: set<ExecutionId> := {};
    tally := NOTHING;
    TallyStart(t);
    while rest != {}
      invariant rest + done == t.executions.Keys && rest !! done
      invariant forall e :: e in done ==> HotRowGood(t, e)
      invariant Tallied(t, done, tally)
      decreases |rest|
    {
      var e :| e in rest;
      var good := CheckHot(t, e);
      if !good { return false, tally; }
      TallyStep(t, done, tally, e);
      tally := Counted(tally, t.executions[e]);
      rest := rest - {e};
      done := done + {e};
    }
    assert done == t.executions.Keys;
    return true, tally;
  }

  /** Compares the stored per-caller counters with the tally, using each tally once. */
  method CheckCallers(t: Tables, activeByCaller: map<CallerId, nat>) returns (ok: bool)
    requires CallersTallied(activeByCaller, t.executions, t.executions.Keys)
    ensures ok <==> CallersMatch(t)
  {
    hide CallersTallied, CallersMatch;
    CallersMatchTally(t, activeByCaller);
    var remaining := activeByCaller;
    var rest := t.peers.Keys;
    while rest != {}
      invariant rest <= t.peers.Keys
      invariant forall c :: c in remaining <==> c in activeByCaller && (c in t.peers ==> c in rest)
      invariant forall c :: c in remaining ==> remaining[c] == activeByCaller[c]
      invariant forall c :: c in t.peers && c !in rest ==> PeerActive(t.peers, c) == TallyFor(activeByCaller, c)
      decreases |rest|
    {
      var c :| c in rest;
      var actual := if c in remaining then remaining[c] else 0;
      if actual != t.peers[c].active {
        assert PeerActive(t.peers, c) != TallyFor(activeByCaller, c);
        return false;
      }
      remaining := remaining - {c};
      rest := rest - {c};
    }
    if remaining != map[] {
      assert exists c :: c in remaining;
      ghost var c :| c in remaining;
      assert PeerActive(t.peers, c) != TallyFor(activeByCaller, c);
      return false;
    }
    return true;
  }

  lemma CallersMatchTally(t: Tables, activeByCaller: map<CallerId, nat>)
    requires CallersTallied(activeByCaller, t.executions, t.executions.Keys)
    ensures CallersMatch(t) <==> forall c :: PeerActive(t.peers, c) == TallyFor(activeByCaller, c)
    ensures forall c :: c in activeByCaller ==> activeByCaller[c] > 0
  {
    TallyIsCount(activeByCaller, t.executions);
    hide CallersTallied;
    if CallersMatch(t) {
      forall c
        ensures PeerActive(t.peers, c) == TallyFor(activeByCaller, c)
      {
        assert PeerActive(t.peers, c) == |ActiveSetOf(t.executions, c)|;
      }
    }
  }

  /** The integrity check. */
  method Verify(t: Tables) returns (ok: bool)
    ensures ok <==> Verified(t)
  {
    hide HotRowGood, TombstoneRowGood, RequestRowGood, LocationRowGood, CallersMatch, CallersTallied, GatesSound, Members, OwnedRows, ActiveSet;
    if !GatesSound(t.relationships, t.catalogs) { return false; }
    if !CountersReadable(t.global) { return false; }
    var good, tally := TallyHot(t);
    if !good { return false; }
    if !(forall e :: e in t.tombstones ==> TombstoneRowGood(t, e)) { return false; }
    var active := SumCallers(tally.activeByCaller, t.executions);
    if active != t.global.active || tally.queued != t.global.dispatchQueued || tally.settled != t.global.hotTerminal
       || |t.tombstones| != t.global.tombstones || |t.available| != tally.available || |t.claims| != tally.claims
       || |t.terminal| != tally.settled || |t.observations| != tally.observations || |t.artifacts| != tally.artifacts
       || |t.executions| != t.global.active + t.global.hotTerminal
       || |t.locations| != |t.executions| + |t.tombstones| || |t.byRequest| != |t.locations| {
      return false;
    }
    if !(forall k :: k in t.byRequest ==> RequestRowGood(t, k)) { return false; }
    if !(forall e :: e in t.locations ==> LocationRowGood(t, e)) { return false; }
    ok := CheckCallers(t, tally.activeByCaller);
  }
}
