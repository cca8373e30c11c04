/** What no transaction of the serving-peer store ever undoes. `Evolves` is a preorder on table
    states, so a fact proved for one step holds between any two states of a run. */
module PeerEvolution {
  import opened Prelude
  import opened PeerTypes
  import opened PeerTables

  /** The identity an execution was accepted under, wherever it now lives. */
  datatype Acceptance = Acceptance(
    caller: CallerId, requestId: RequestId, digest: DigestText, sequence: u64, acceptedAt: u64)

  function Known(t: Tables): set<ExecutionId> { t.executions.Keys + t.tombstones.Keys }

  function AcceptanceOf(t: Tables, e: ExecutionId): Acceptance
    requires e in Known(t)
  {
    if e in t.executions then
      var r := t.executions[e];
      Acceptance(r.caller, r.request.requestId, r.request.digest, r.acceptanceSequence, r.acceptedAt)
    else
      var d := t.tombstones[e];
      Acceptance(d.caller, d.requestId, d.requestDigest, d.acceptanceSequence, d.acceptedAt)
  }

  /** The complete observation history, hot or compacted. */
  function HistoryOf(t: Tables, e: ExecutionId): seq<Observation>
    requires e in Known(t)
  {
    if e in t.executions then t.executions[e].History() else Log(t.tombstones[e].digest)
  }

  ghost predicate CancellationAdvances(a: Option<Cancellation>, b: Option<Cancellation>) {
    a.Some? ==>
      && b.Some?
      && b.value.request == a.value.request && b.value.requestedAt == a.value.requestedAt
      && (a.value.acknowledgement.Some? ==> b == a)
  }

  /** A hot record may only move forward: acceptance is fixed, history grows, entry evidence is
      written once, settled work stays settled, and a terminal record keeps its outcome. A longer
      history takes a higher revision. */
  ghost predicate RecordAdvances(a: Record, b: Record) {
    && SameAcceptance(a, b)
    && a.History() <= b.History()
    && (!a.phase.IsActive() ==> !b.phase.IsActive())
    && (a.phase.Terminal? ==> b.phase == a.phase && b.digest == a.digest && b.accounting == a.accounting)
    && (a.phase.IsActive() && a.phase.EvidenceOf().Some? && b.phase.IsActive() ==>
          b.phase.EvidenceOf() == a.phase.EvidenceOf())
    && CancellationAdvances(a.cancellation, b.cancellation)
    && a.revision <= b.revision
    && (a.History() != b.History() ==> a.revision < b.revision)
  }

  /** A tombstone records the settled record it was made from. */
  ghost predicate ArchivedFrom(a: Record, d: Tombstone) {
    && a.caller == d.caller && a.request.requestId == d.requestId && a.request.digest == d.requestDigest
    && a.execution == d.execution
    && a.acceptanceSequence == d.acceptanceSequence && a.acceptedAt == d.acceptedAt
    && a.History() <= Log(d.digest)
    && (a.phase.Terminal? ==> Log(d.digest) == a.History() && d.disposition.Finished?)
    && (a.revision == U64_MAX ==> Log(d.digest) == a.History())
    && CancellationAdvances(a.cancellation, d.cancellation)
  }

  ghost predicate ExecutionAdvances(t: Tables, u: Tables, e: ExecutionId)
    requires e in Known(t)
  {
    if e in t.executions then
      || (e in u.executions && RecordAdvances(t.executions[e], u.executions[e]))
      || (e in u.tombstones && ArchivedFrom(t.executions[e], u.tombstones[e]))
    else
      e in u.tombstones && u.tombstones[e] == t.tombstones[e]
  }

  ghost predicate Evolves(t: Tables, u: Tables) {
    && (forall e :: e in Known(t) ==> ExecutionAdvances(t, u, e))
    && (forall k :: k in t.byRequest ==> k in u.byRequest && u.byRequest[k] == t.byRequest[k])
    && t.global.nextSequence <= u.global.nextSequence
    && t.global.archiveGeneration <= u.global.archiveGeneration
  }

  /** A transaction that aborts leaves the store where it was. */
  lemma Unchanged(t: Tables)
    ensures Evolves(t, t)
  {
    forall e | e in Known(t)
      ensures ExecutionAdvances(t, t, e)
    {
      if e in t.executions {
        assert RecordAdvances(t.executions[e], t.executions[e]);
      }
    }
  }

  lemma RecordAdvancesTransitive(a: Record, b: Record, c: Record)
    requires RecordAdvances(a, b) && RecordAdvances(b, c)
    ensures RecordAdvances(a, c)
  {
  }

  lemma ArchivalAfterAdvance(a: Record, b: Record, d: Tombstone)
    requires RecordAdvances(a, b) && ArchivedFrom(b, d)
    ensures ArchivedFrom(a, d)
  {
  }

  lemma EvolvesTransitive(t: Tables, u: Tables, v: Tables)
    requires PrimaryAgrees(u)
    requires Evolves(t, u) && Evolves(u, v)
    ensures Evolves(t, v)
  {
    forall e | e in Known(t)
      ensures ExecutionAdvances(t, v, e)
    {
      assert ExecutionAdvances(t, u, e);
      assert e in Known(u);
      assert ExecutionAdvances(u, v, e);
      if e in t.executions && e in u.executions && RecordAdvances(t.executions[e], u.executions[e]) {
        if e in v.executions && RecordAdvances(u.executions[e], v.executions[e]) {
          RecordAdvancesTransitive(t.executions[e], u.executions[e], v.executions[e]);
        } else {
          ArchivalAfterAdvance(t.executions[e], u.executions[e], v.tombstones[e]);
        }
      }
    }
  }

  /** Acceptance identity is permanent and histories only grow, archival included. */
  lemma EvolutionKeepsIdentity(t: Tables, u: Tables, e: ExecutionId)
    requires PrimaryAgrees(u) && Evolves(t, u) && e in Known(t)
    ensures e in Known(u)
    ensures AcceptanceOf(u, e) == AcceptanceOf(t, e)
    ensures HistoryOf(t, e) <= HistoryOf(u, e)
  {
    assert ExecutionAdvances(t, u, e);
  }

  /** The request index leads from an execution's request identity back to the execution. */
  lemma RequestNamesExecution(t: Tables, e: ExecutionId)
    requires RequestsAgree(t) && e in Known(t)
    ensures RequestKey(AcceptanceOf(t, e).caller, AcceptanceOf(t, e).requestId) in t.byRequest
    ensures t.byRequest[RequestKey(AcceptanceOf(t, e).caller, AcceptanceOf(t, e).requestId)] == e
  {
  }

  /** At most one execution ever exists per caller and request identity. */
  lemma OneExecutionPerRequest(t: Tables, u: Tables, d: ExecutionId, e: ExecutionId)
    requires Consistent(t) && Consistent(u) && Evolves(t, u)
    requires d in Known(t) && e in Known(u)
    requires AcceptanceOf(t, d).caller == AcceptanceOf(u, e).caller
    requires AcceptanceOf(t, d).requestId == AcceptanceOf(u, e).requestId
    ensures d == e
    ensures AcceptanceOf(t, d) == AcceptanceOf(u, e)
  {
    EvolutionKeepsIdentity(t, u, d);
    RequestNamesExecution(u, d);
    RequestNamesExecution(u, e);
  }

  /** A history that has ended never changes again. */
  lemma EndedHistoryIsFinal(t: Tables, u: Tables, e: ExecutionId)
    requires Consistent(t) && Consistent(u) && Evolves(t, u)
    requires e in Known(t) && Ended(HistoryOf(t, e))
    ensures e in Known(u) && HistoryOf(u, e) == HistoryOf(t, e)
  {
    EvolutionKeepsIdentity(t, u, e);
    assert ExecutionAdvances(t, u, e);
    if e in t.executions {
      assert RecordSound(t.executions[e]);
    }
  }

  /** One hot record rewritten moves the whole store forward when the record moved forward. */
  lemma ReplaceEvolves(t: Tables, u: Tables, e: ExecutionId, r: Record)
    requires PrimaryAgrees(t) && e in t.executions
    requires RecordAdvances(t.executions[e], r)
    requires u.executions == t.executions[e := r] && SameElsewhere(t, u)
    requires u.global.nextSequence == t.global.nextSequence
    requires u.global.archiveGeneration == t.global.archiveGeneration
    ensures Evolves(t, u)
  {
    forall x | x in Known(t)
      ensures ExecutionAdvances(t, u, x)
    {
      if x in t.executions && x != e {
        assert RecordAdvances(t.executions[x], u.executions[x]);
      }
    }
  }

  // ---- Per-caller counts ----

  ghost function ActiveOf(executions: map<ExecutionId, Record>, callers: set<CallerId>): set<ExecutionId> {
    set e | e in executions && executions[e].phase.IsActive() && executions[e].caller in callers
  }

  ghost function SumActive(peers: map<CallerId, PeerAccounting>, callers: set<CallerId>): nat
    decreases |callers|
  {
    if callers == {} then 0
    else
      var c :| c in callers;
      PeerActive(peers, c) + SumActive(peers, callers - {c})
  }

  lemma OneCallerApart(executions: map<ExecutionId, Record>, callers: set<CallerId>, c: CallerId)
    requires c in callers
    ensures |ActiveOf(executions, callers)| == |ActiveSetOf(executions, c)| + |ActiveOf(executions, callers - {c})|
  {
    assert ActiveOf(executions, callers) == ActiveSetOf(executions, c) + ActiveOf(executions, callers - {c});
    assert ActiveSetOf(executions, c) !! ActiveOf(executions, callers - {c});
  }

  lemma {:induction false} PeerCountsSum(t: Tables, callers: set<CallerId>)
    requires CountersAgree(t)
    ensures SumActive(t.peers, callers) == |ActiveOf(t.executions, callers)|
    decreases |callers|
  {
    if callers == {} {
      assert ActiveOf(t.executions, callers) == {};
    } else {
      var c :| c in callers && SumActive(t.peers, callers) == PeerActive(t.peers, c) + SumActive(t.peers, callers - {c});
      PeerCountsSum(t, callers - {c});
      assert PeerActive(t.peers, c) == |ActiveSetOf(t.executions, c)|;
      OneCallerApart(t.executions, callers, c);
    }
  }

  /** The per-caller counters sum to the global one. */
  lemma PeerCountsSumToGlobal(t: Tables)
    requires CountersAgree(t)
    ensures SumActive(t.peers, t.peers.Keys) == t.global.active
  {
    PeerCountsSum(t, t.peers.Keys);
    forall e | e in ActiveSet(t.executions)
      ensures e in ActiveOf(t.executions, t.peers.Keys)
    {
      var c := t.executions[e].caller;
      assert e in ActiveSetOf(t.executions, c);
      assert PeerActive(t.peers, c) == |ActiveSetOf(t.executions, c)| > 0;
    }
    assert ActiveOf(t.executions, t.peers.Keys) == ActiveSet(t.executions);
  }
}
