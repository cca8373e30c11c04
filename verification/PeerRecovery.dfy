/** Recovery of claims left behind by a stopped process: work that never entered its adapter is
    queued again, work that did is retained as uncertain and never queued again. */
module PeerRecovery {
  import opened Prelude
  import opened Sums
  import opened PeerTypes
  import opened PeerTables
  import opened PeerEvolution
  import opened PeerTransaction
  import opened PeerCommit
  import opened PeerScan

  const RESTART_REASON_BYTES: nat := 52

  /** What becomes of a claimed record. */
  function Recovered(r: Record, at: u64): Record {
    Rewritten(
      r,
      if r.phase.DispatchClaimed? then DispatchAvailable(at)
      else if r.phase.EvidenceOf().None? then CancellationRequested(None, None)
      else Uncertain(at, RESTART_REASON_BYTES),
      r.cancellation)
  }

  /** One claim recovered: work that never entered waits again, a claimed cancellation waits again without
      its claim, and entered work is uncertain from now on; nothing else of the record moves. */
  ghost predicate RecoveredWell(a: Record, b: Record, at: u64) {
    && a.phase.ClaimOf().Some? && b == a.(phase := b.phase, revision := b.revision) && b.revision == a.revision + 1
    && (a.phase.DispatchClaimed? ==> b.phase == DispatchAvailable(at))
    && (a.phase.CancellationRequested? && a.phase.evidence.None? ==>
          b.phase.CancellationRequested? && b.phase.claim.None? && b.phase.evidence.None?)
    && (a.phase.Entered? || (a.phase.CancellationRequested? && a.phase.evidence.Some?) ==>
          && b.phase.Uncertain? && b.phase.uncertainAt == at
          && b.phase.reasonBytes == |"serving daemon restarted after durable adapter entry"|)
  }

  lemma RecoveredIsWell(r: Record, at: u64)
    requires r.phase.ClaimOf().Some? && r.revision < U64_MAX
    ensures RecoveredWell(r, Recovered(r, at), at) && Recovered(r, at).phase.ClaimOf().None?
  {
  }

  /** Of all claims those that expire first were recovered, each as it should be, and nothing else. */
  ghost predicate RecoveredFirst(t: Tables, u: Tables, at: u64) {
    && u.executions.Keys == t.executions.Keys
    && (forall e :: e in t.executions ==> u.executions[e] == t.executions[e] || RecoveredWell(t.executions[e], u.executions[e], at))
    && (forall d, e :: d in t.executions && e in t.executions && u.executions[d] != t.executions[d]
                       && t.executions[e].phase.ClaimOf().Some? && u.executions[e] == t.executions[e] ==>
          && t.executions[d].phase.ClaimOf().Some?
          && t.executions[d].phase.ClaimOf().value.leaseExpiresAt <= t.executions[e].phase.ClaimOf().value.leaseExpiresAt)
  }

  lemma BatchRecoversFirst(t: Tables, p: Recovery, at: u64, limit: nat, taken: set<Key>)
    requires Consistent(t) && RecoveredBatch(t, p, at, limit) && p.tables.claims == t.claims - taken && taken <= t.claims.Keys
    requires RecoveryFits(t, taken)
    ensures RecoveredFirst(t, p.tables, at)
  {
    hide Consistent, Untouched, TakenRows, EnteredOf, Recovered, RecoveredWell, KeyBelow, RecoveryFits;
    assert t.claims.Keys - p.tables.claims.Keys == taken;
    forall e | e in t.executions
      ensures p.tables.executions[e] == t.executions[e] || RecoveredWell(t.executions[e], p.tables.executions[e], at)
    {
      OneRecovered(t, p, at, taken, e);
    }
    forall d, e | d in t.executions && e in t.executions && p.tables.executions[d] != t.executions[d]
                  && t.executions[e].phase.ClaimOf().Some? && p.tables.executions[e] == t.executions[e]
      ensures t.executions[d].phase.ClaimOf().Some?
      ensures t.executions[d].phase.ClaimOf().value.leaseExpiresAt <= t.executions[e].phase.ClaimOf().value.leaseExpiresAt
    {
      OneRecovered(t, p, at, taken, d);
      OneRecovered(t, p, at, taken, e);
      KeysByLease(ClaimKey(d, t.executions[d].phase.ClaimOf().value), ClaimKey(e, t.executions[e].phase.ClaimOf().value));
    }
  }

  lemma OneRecovered(t: Tables, p: Recovery, at: u64, taken: set<Key>, e: ExecutionId)
    requires Consistent(t) && p.tables.claims == t.claims - taken && RecoveryFits(t, taken)
    requires RecoveredBy(t.executions, p.tables.executions, taken, at) && e in t.executions
    ensures p.tables.executions[e] != t.executions[e] ==>
              && t.executions[e].phase.ClaimOf().Some? && ClaimKey(e, t.executions[e].phase.ClaimOf().value) in taken
              && RecoveredWell(t.executions[e], p.tables.executions[e], at)
    ensures t.executions[e].phase.ClaimOf().Some? && p.tables.executions[e] == t.executions[e] ==>
              ClaimKey(e, t.executions[e].phase.ClaimOf().value) in p.tables.claims
  {
    hide Consistent, TakenRows, EnteredOf, Recovered, RecoveredWell;
    HotExecutionFinds(t, e);
    if t.executions[e].phase.ClaimOf().Some? {
      ClaimRow(t, e);
      if t.executions[e].revision < U64_MAX { RecoveredIsWell(t.executions[e], at); }
    }
  }

  lemma KeysByLease(a: Key, b: Key)
    ensures KeyBelow(a, b) ==> a.number <= b.number
  {
  }

  /** A requeued record leaves the claim index for the available one and counts as before. */
  lemma RequeuedPlace(a: Record, b: Record)
    requires a.phase.WellFormed() && a.phase.ClaimOf().Some? && a.phase.EvidenceOf().None?
    requires b.phase.DispatchAvailable? || b.phase == CancellationRequested(None, None)
    ensures KeyIn(Available, a) == None && KeyIn(Claims, a) == Some(ClaimKey(a.execution, a.phase.ClaimOf().value))
    ensures KeyIn(Available, b) == Some(AvailableKey(b)) && KeyIn(Claims, b) == None
    ensures KeyIn(Settled, a) == None && KeyIn(Settled, b) == None
    ensures a.phase.IsActive() && b.phase.IsActive() && a.phase.IsPreEntry() && b.phase.IsPreEntry()
  {
  }

  lemma CommitRequeue(t: Tables, u: Tables, e: ExecutionId, at: u64)
    requires Consistent(t) && e in t.executions && t.executions[e].revision < U64_MAX
    requires t.executions[e].phase.ClaimOf().Some? && t.executions[e].phase.EvidenceOf().None?
    requires var r := Recovered(t.executions[e], at);
             u == t.(executions := t.executions[e := r],
                     claims := t.claims - {ClaimKey(e, t.executions[e].phase.ClaimOf().value)},
                     available := t.available[AvailableKey(r) := e])
    ensures Consistent(u) && Evolves(t, u) && RecordValid(Recovered(t.executions[e], at))
  {
    hide Consistent, Evolves, RecordSound, RecordValid;
    HotExecutionFinds(t, e);
    var a, r := t.executions[e], Recovered(t.executions[e], at);
    RequeuedPlace(a, r);
    CommitPhase(t, u, e, r);
    HotExecutionFinds(u, e);
  }

  lemma ClaimOfRow(t: Tables, key: Key)
    requires Consistent(t) && key in t.claims
    ensures t.claims[key] == key.execution && key.execution in t.executions && t.executions[key.execution].execution == key.execution
    ensures t.executions[key.execution].phase.ClaimOf().Some?
    ensures key == ClaimKey(key.execution, t.executions[key.execution].phase.ClaimOf().value)
  {
    hide Consistent;
    RowOwner(t, key, Claims);
    HotExecutionFinds(t, key.execution);
  }

  /** Queues a claim again that never crossed the adapter-entry boundary. */
  method Requeue(t: Tables, key: Key, at: u64) returns (result: Result<Tables, Error>)
    requires Consistent(t) && key in t.claims && at != 0
    requires key.execution in t.executions && t.executions[key.execution].phase.EvidenceOf().None?
    ensures result.Ok? <==> !Full(t, t.executions[key.execution], false)
    ensures result.Ok? ==>
              && Consistent(result.value) && Evolves(t, result.value)
              && result.value.executions == t.executions[key.execution := Recovered(t.executions[key.execution], at)]
              && result.value.claims == t.claims - {key} && Untouched(t, result.value)
              && Raised(t, result.value, t.executions[key.execution].caller, false)
    ensures result.Err? ==> result.error == EXHAUSTED
  {
    hide Consistent, Evolves, RecordSound, RecordValid, Recovered;
    ClaimOfRow(t, key);
    var execution := t.claims[key];
    var record := t.executions[execution];
    if record.phase.ClaimOf().None? { assert false; }
    if ClaimKey(record.execution, record.phase.ClaimOf().value) != key { assert false; }
    var claims := RemoveRow(t.claims, key, execution);
    if claims.Err? { assert false; }
    if record.revision == U64_MAX { return Err(EXHAUSTED); }
    record := Recovered(record, at);
    var write := t.(
      executions := t.executions[execution := record],
      claims := claims.value,
      available := t.available[AvailableKey(record) := execution]);
    CommitRequeue(t, write, execution, at);
    if !RecordValid(record) { assert false; }
    return Ok(write);
  }

  /** Retains a claim that had crossed the adapter-entry boundary. */
  method Retain(t: Tables, key: Key, at: u64) returns (result: Result<Tables, Error>)
    requires Consistent(t) && key in t.claims && at != 0
    requires key.execution in t.executions && t.executions[key.execution].phase.EvidenceOf().Some?
    ensures result.Ok? <==> !Full(t, t.executions[key.execution], true)
    ensures result.Ok? ==>
              && Consistent(result.value) && Evolves(t, result.value)
              && result.value.executions == t.executions[key.execution := Recovered(t.executions[key.execution], at)]
              && result.value.claims == t.claims - {key} && Untouched(t, result.value)
              && Raised(t, result.value, t.executions[key.execution].caller, true)
    ensures result.Err? ==> result.error == EXHAUSTED
  {
    hide Consistent, Evolves, RecordSound;
    RowOwner(t, key, Claims);
    var execution := t.claims[key];
    HotExecutionFinds(t, execution);
    var record := t.executions[execution];
    var claims := RemoveRow(t.claims, key, execution);
    if claims.Err? { assert false; }
    record := record.(phase := Uncertain(at, RESTART_REASON_BYTES));
    ReleaseSucceeds(t, execution);
    var units :- ReleaseActive(t.global, t.peers, record.caller, false);
    record :- Bumped(record);
    if !RecordValid(record) { assert false; }
    var write := t.(
      executions := t.executions[execution := record],
      claims := claims.value,
      terminal := t.terminal[Key(at, execution) := execution],
      global := units.global, peers := units.peers);
    CommitPhase(t, write, execution, record);
    return Ok(write);
  }

  /** Logs, archived executions, identities, gates and catalogs play no part in recovery. */
  ghost predicate Untouched(t: Tables, u: Tables) {
    && SameElsewhere(t, u) && u.observations == t.observations && u.artifacts == t.artifacts
    && u.global.admissionOpen == t.global.admissionOpen && u.global.nextSequence == t.global.nextSequence
  }

  datatype Recovery = Recovery(tables: Tables, requeued: nat, uncertain: nat, more: bool)

  /** Whether this claim row is among those taken and its execution had entered, or had not. */
  ghost function TakenRows(executions: map<ExecutionId, Record>, keys: set<Key>, entered: bool): set<Key> {
    set k | k in keys && k.execution in executions && executions[k.execution].phase.EvidenceOf().Some? == entered
  }

  ghost function EnteredOf(executions: map<ExecutionId, Record>, keys: set<Key>, caller: CallerId): set<Key> {
    set k | k in TakenRows(executions, keys, true) && executions[k.execution].caller == caller
  }

  /** No counter that recovering these claims raises passes the top of its range. */
  ghost predicate RecoveryFits(t: Tables, keys: set<Key>) {
    && (forall k :: k in keys && k.execution in t.executions ==> t.executions[k.execution].revision < U64_MAX)
    && t.global.hotTerminal + |TakenRows(t.executions, keys, true)| <= U64_MAX
    && (forall c :: PeerAccountingOf(t.peers, c).revision + |EnteredOf(t.executions, keys, c)| <= U64_MAX)
  }

  lemma FewerFit(t: Tables, keys: set<Key>, more: set<Key>)
    requires keys <= more && RecoveryFits(t, more)
    ensures RecoveryFits(t, keys)
  {
    SubsetIsNoLarger(TakenRows(t.executions, keys, true), TakenRows(t.executions, more, true));
    forall c
      ensures PeerAccountingOf(t.peers, c).revision + |EnteredOf(t.executions, keys, c)| <= U64_MAX
    {
      SubsetIsNoLarger(EnteredOf(t.executions, keys, c), EnteredOf(t.executions, more, c));
    }
  }

  /** Every execution whose claim row was taken is recovered, every other one is untouched. */
  ghost predicate RecoveredBy(executions: map<ExecutionId, Record>, after: map<ExecutionId, Record>, keys: set<Key>, at: u64) {
    && after.Keys == executions.Keys
    && (forall e :: e in executions ==>
          after[e] == if KeyIn(Claims, executions[e]).Some? && KeyIn(Claims, executions[e]).value in keys
                      then Recovered(executions[e], at) else executions[e])
  }

  /** One recovery pass: the first claims by lease expiry, at most `limit`, each recovered once. */
  ghost predicate RecoveredBatch(t: Tables, p: Recovery, at: u64, limit: nat) {
    var taken := t.claims.Keys - p.tables.claims.Keys;
    && Untouched(t, p.tables)
    && p.tables.claims.Keys <= t.claims.Keys
    && (forall k, l :: k in taken && l in p.tables.claims ==> KeyBelow(k, l))
    && RecoveredBy(t.executions, p.tables.executions, taken, at)
    && p.requeued == |TakenRows(t.executions, taken, false)|
    && p.uncertain == |TakenRows(t.executions, taken, true)|
    && |taken| <= limit
    && (p.more <==> p.tables.claims != map[])
    && (p.more ==> |taken| == limit)
  }

  lemma TakeOneMore(executions: map<ExecutionId, Record>, after: map<ExecutionId, Record>, keys: set<Key>, key: Key, at: u64)
    requires RecoveredBy(executions, after, keys, at) && key !in keys
    requires key.execution in executions && KeyIn(Claims, executions[key.execution]) == Some(key)
    requires forall e :: e in executions ==> executions[e].execution == e
    ensures after[key.execution] == executions[key.execution]
    ensures RecoveredBy(executions, after[key.execution := Recovered(executions[key.execution], at)], keys + {key}, at)
    ensures forall entered :: |TakenRows(executions, keys + {key}, entered)|
              == |TakenRows(executions, keys, entered)|
                 + Unit(executions[key.execution].phase.EvidenceOf().Some? == entered)
  {
    hide Recovered;
    forall entered
      ensures |TakenRows(executions, keys + {key}, entered)|
              == |TakenRows(executions, keys, entered)|
                 + Unit(executions[key.execution].phase.EvidenceOf().Some? == entered)
    {
      if executions[key.execution].phase.EvidenceOf().Some? == entered {
        assert TakenRows(executions, keys + {key}, entered) == TakenRows(executions, keys, entered) + {key};
      } else {
        assert TakenRows(executions, keys + {key}, entered) == TakenRows(executions, keys, entered);
      }
    }
  }

  /** A pass under way: the rows of `taken` are recovered. */
  ghost predicate Underway(t: Tables, p: Recovery, taken: set<Key>, at: u64) {
    && p.tables.claims == t.claims - taken && Untouched(t, p.tables)
    && RecoveredBy(t.executions, p.tables.executions, taken, at)
    && p.requeued == |TakenRows(t.executions, taken, false)|
    && p.uncertain == |TakenRows(t.executions, taken, true)|
    && RaisedBy(t, p.tables, taken)
  }

  /** The counters count the retained claims on top of what they were. */
  ghost predicate RaisedBy(t: Tables, u: Tables, taken: set<Key>) {
    && u.global.hotTerminal == t.global.hotTerminal + |TakenRows(t.executions, taken, true)|
    && (forall c :: PeerAccountingOf(u.peers, c).revision
                    == PeerAccountingOf(t.peers, c).revision + |EnteredOf(t.executions, taken, c)|)
  }

  lemma UnderwayStart(t: Tables, at: u64)
    ensures Underway(t, Recovery(t, 0, 0, false), {}, at) && RecoveryFits(t, {})
  {
    assert TakenRows(t.executions, {}, true) == {} && TakenRows(t.executions, {}, false) == {};
    assert forall c :: EnteredOf(t.executions, {}, c) == {};
  }

  /** One more claim fits exactly when the counters it raises are not full now. */
  lemma FitsOneMore(t: Tables, u: Tables, taken: set<Key>, key: Key)
    requires RaisedBy(t, u, taken) && RecoveryFits(t, taken) && key !in taken
    requires key.execution in t.executions && t.executions[key.execution].phase.ClaimOf().Some?
    ensures RecoveryFits(t, taken + {key})
            <==> !Full(u, t.executions[key.execution], t.executions[key.execution].phase.EvidenceOf().Some?)
  {
    var r := t.executions[key.execution];
    OneMoreEntered(t.executions, taken, key);
    if RecoveryFits(t, taken + {key}) {
      assert PeerAccountingOf(u.peers, r.caller).revision
          == PeerAccountingOf(t.peers, r.caller).revision + |EnteredOf(t.executions, taken, r.caller)|;
      assert PeerAccountingOf(t.peers, r.caller).revision + |EnteredOf(t.executions, taken + {key}, r.caller)| <= U64_MAX;
    }
    if !Full(u, r, r.phase.EvidenceOf().Some?) {
      forall c
        ensures PeerAccountingOf(t.peers, c).revision + |EnteredOf(t.executions, taken + {key}, c)| <= U64_MAX
      {
        assert PeerAccountingOf(u.peers, c).revision
            == PeerAccountingOf(t.peers, c).revision + |EnteredOf(t.executions, taken, c)|;
      }
    }
  }

  lemma OneMoreEntered(executions: map<ExecutionId, Record>, taken: set<Key>, key: Key)
    requires key !in taken && key.execution in executions
    ensures var entered := executions[key.execution].phase.EvidenceOf().Some?;
            && |TakenRows(executions, taken + {key}, true)| == |TakenRows(executions, taken, true)| + Unit(entered)
            && forall c :: |EnteredOf(executions, taken + {key}, c)|
                           == |EnteredOf(executions, taken, c)| + Unit(entered && c == executions[key.execution].caller)
  {
    var entered := executions[key.execution].phase.EvidenceOf().Some?;
    assert TakenRows(executions, taken + {key}, true) == TakenRows(executions, taken, true) + (if entered then {key} else {});
    hide EnteredOf, TakenRows;
    forall c
      ensures |EnteredOf(executions, taken + {key}, c)|
              == |EnteredOf(executions, taken, c)| + Unit(entered && c == executions[key.execution].caller)
    {
      OneMoreOf(executions, taken, key, c);
    }
  }

  lemma OneMoreOf(executions: map<ExecutionId, Record>, taken: set<Key>, key: Key, c: CallerId)
    requires key !in taken && key.execution in executions
    ensures |EnteredOf(executions, taken + {key}, c)| == |EnteredOf(executions, taken, c)|
              + Unit(executions[key.execution].phase.EvidenceOf().Some? && c == executions[key.execution].caller)
  {
    if executions[key.execution].phase.EvidenceOf().Some? && c == executions[key.execution].caller {
      assert EnteredOf(executions, taken + {key}, c) == EnteredOf(executions, taken, c) + {key};
    } else {
      assert EnteredOf(executions, taken + {key}, c) == EnteredOf(executions, taken, c);
    }
  }

  lemma RaisedOneMore(t: Tables, u: Tables, v: Tables, taken: set<Key>, key: Key)
    requires RaisedBy(t, u, taken) && key !in taken && key.execution in t.executions
    requires Raised(u, v, t.executions[key.execution].caller, t.executions[key.execution].phase.EvidenceOf().Some?)
    ensures RaisedBy(t, v, taken + {key})
  {
    OneMoreEntered(t.executions, taken, key);
    forall c
      ensures PeerAccountingOf(v.peers, c).revision
              == PeerAccountingOf(t.peers, c).revision + |EnteredOf(t.executions, taken + {key}, c)|
    {
      assert PeerAccountingOf(u.peers, c).revision
          == PeerAccountingOf(t.peers, c).revision + |EnteredOf(t.executions, taken, c)|;
    }
  }

  /** One turn of the recovery loop. */
  method RecoverNext(t: Tables, p: Recovery, taken: set<Key>, key: Key, at: u64) returns (result: Result<Recovery, Error>)
    requires Consistent(t) && Consistent(p.tables) && Evolves(t, p.tables) && at != 0
    requires Underway(t, p, taken, at) && key in t.claims && key !in taken && RecoveryFits(t, taken)
    ensures result.Ok? <==> RecoveryFits(t, taken + {key})
    ensures result.Ok? ==>
              && Consistent(result.value.tables) && Evolves(t, result.value.tables)
              && Underway(t, result.value, taken + {key}, at)
    ensures result.Err? ==> result.error == EXHAUSTED
  {
    hide Consistent, Evolves, RecoveredBy, TakenRows, Recovered, RecoveryFits, RaisedBy, Raised, Full;
    RowOwner(t, key, Claims);
    RowOwner(p.tables, key, Claims);
    forall e | e in t.executions
      ensures t.executions[e].execution == e
    {
      HotExecutionFinds(t, e);
    }
    TakeOneMore(t.executions, p.tables.executions, taken, key, at);
    var entered := p.tables.executions[key.execution].phase.EvidenceOf().Some?;
    FitsOneMore(t, p.tables, taken, key);
    var moved: Result<Tables, Error>;
    if entered {
      moved := Retain(p.tables, key, at);
    } else {
      moved := Requeue(p.tables, key, at);
    }
    if moved.Err? { return Err(moved.error); }
    EvolvesThrough(t, p.tables, moved.value);
    RaisedOneMore(t, p.tables, moved.value, taken, key);
    assert moved.value.claims == t.claims - (taken + {key});
    return Ok(Recovery(
      moved.value,
      p.requeued + (if entered then 0 else 1),
      p.uncertain + (if entered then 1 else 0),
      false));
  }

  lemma PassSummary(t: Tables, p: Recovery, keys: seq<Key>, at: u64, limit: nat)
    requires Underway(t, p, KeySet(keys), at) && Leads(t.claims, keys)
    requires |keys| <= limit && (|keys| < limit ==> forall k :: k in t.claims ==> k in keys)
    requires p.more <==> p.tables.claims != map[]
    ensures RecoveredBatch(t, p, at, limit)
  {
    hide RecoveredBy, TakenRows, KeyBelow;
    assert t.claims.Keys - p.tables.claims.Keys == KeySet(keys);
    KeySetSize(keys);
    hide Leads;
    EarliestTaken(t.claims, p.tables.claims, keys);
  }

  lemma EarliestTaken(claims: map<Key, ExecutionId>, left: map<Key, ExecutionId>, keys: seq<Key>)
    requires Leads(claims, keys) && left == claims - KeySet(keys)
    ensures forall k, l :: k in KeySet(keys) && l in left ==> KeyBelow(k, l)
  {
    hide KeyBelow;
  }

  /** Recovers the claims that expire first, at most `limit` of them. */
  method RecoverClaims(t: Tables, at: u64, limit: nat) returns (result: Result<Recovery, Error>)
    requires Consistent(t)
    ensures result.Ok? ==>
              && Consistent(result.value.tables) && Evolves(t, result.value.tables)
              && RecoveredBatch(t, result.value, at, limit) && RecoveredFirst(t, result.value.tables, at)
    ensures result.Ok? <==> at != 0 && RecoveryFits(t, Earliest(t.claims, limit))
    ensures result.Err? ==> result.error == if at == 0 then Invalid else EXHAUSTED
  {
    hide Consistent, Evolves, Underway, RecoveredBatch, RecoveryFits, Earliest, RecoveredFirst;
    if at == 0 { return Err(Invalid); }
    var keys := Take(t.claims, limit);
    var p := Recovery(t, 0, 0, false);
    Unchanged(t);
    UnderwayStart(t, at);
    assert KeySet(keys[..0]) == {};
    for i := 0 to |keys|
      invariant Consistent(p.tables) && Evolves(t, p.tables) && Underway(t, p, KeySet(keys[..i]), at)
      invariant RecoveryFits(t, KeySet(keys[..i]))
    {
      var next := RecoverNext(t, p, KeySet(keys[..i]), keys[i], at);
      assert KeySet(keys[..i + 1]) == KeySet(keys[..i]) + {keys[i]};
      if next.Err? {
        if RecoveryFits(t, KeySet(keys)) { FewerFit(t, KeySet(keys[..i + 1]), KeySet(keys)); }
        return next;
      }
      p := next.value;
    }
    assert keys[..|keys|] == keys;
    p := p.(more := p.tables.claims != map[]);
    MoreIsApart(t, p, KeySet(keys), at);
    PassSummary(t, p, keys, at, limit);
    assert p.tables.claims == t.claims - KeySet(keys) by { UnderwayClaims(t, p, KeySet(keys), at); }
    BatchRecoversFirst(t, p, at, limit, KeySet(keys));
    return Ok(p);
  }

  lemma UnderwayClaims(t: Tables, p: Recovery, taken: set<Key>, at: u64)
    requires Underway(t, p, taken, at)
    ensures p.tables.claims == t.claims - taken
  {
  }

  lemma MoreIsApart(t: Tables, p: Recovery, taken: set<Key>, at: u64)
    ensures Underway(t, p.(more := false), taken, at) == Underway(t, p, taken, at)
    ensures Underway(t, p.(more := true), taken, at) == Underway(t, p, taken, at)
  {
  }
}
