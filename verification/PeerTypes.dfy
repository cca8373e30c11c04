/** Documents of the serving-peer execution store: requests, phases, records, observations
    and tombstones, with the facts every stored record satisfies.

    Identities are only compared and ordered by the store, so they are numbers here. */
module PeerTypes {
  import opened Prelude

  type ExecutionId = nat
  type CallerId = nat
  type RequestId = nat
  type WorkerId = nat
  type DigestText = nat

  datatype Limits = Limits(artifactBytes: u64, durationMs: u64, costMicros: u64, observations: u32)

  /** A submitted request. `wellFormed` stands for the selection, delegation and digest checks
      of the request document, which look at nothing the store keeps. */
  datatype Request = Request(
    caller: CallerId,
    requestId: RequestId,
    digest: DigestText,
    catalogGeneration: u64,
    catalogDigest: DigestText,
    deadline: u64,
    limits: Limits,
    inputBytes: u64,
    wellFormed: bool)

  predicate RequestValid(request: Request) {
    && request.wellFormed
    && request.limits.durationMs != 0
    && 1 <= request.limits.observations <= 1_000_000
    && request.catalogGeneration != 0
    && request.deadline != 0
    && request.inputBytes <= request.limits.artifactBytes
  }

  datatype Claim = Claim(worker: WorkerId, generation: u64, claimedAt: u64, leaseExpiresAt: u64)

  datatype Evidence = Evidence(worker: WorkerId, claimGeneration: u64, enteredAt: u64)

  datatype Phase =
    | DispatchAvailable(availableAt: u64)
    | DispatchClaimed(held: Claim)
    | Entered(held: Claim, entry: Evidence)
    | CancellationRequested(claim: Option<Claim>, evidence: Option<Evidence>)
    | Terminal(sequence: u64, terminalAt: u64)
    | Uncertain(uncertainAt: u64, reasonBytes: nat)
  {
    /** Whether the execution still owns admission capacity. */
    predicate IsActive() {
      !Terminal? && !Uncertain?
    }

    function ClaimOf(): Option<Claim> {
      match this
      case DispatchClaimed(held) => Some(held)
      case Entered(held, _) => Some(held)
      case CancellationRequested(claim, _) => claim
      case _ => None
    }

    function EvidenceOf(): Option<Evidence> {
      match this
      case Entered(_, entry) => Some(entry)
      case CancellationRequested(_, evidence) => evidence
      case _ => None
    }

    /** Active and not yet past the adapter-entry boundary. */
    predicate IsPreEntry() {
      IsActive() && EvidenceOf().None?
    }

    predicate WellFormed() {
      match this
      case Entered(held, entry) => entry.worker == held.worker && entry.claimGeneration == held.generation
      case CancellationRequested(claim, Some(entry)) =>
        claim.Some? && entry.worker == claim.value.worker && entry.claimGeneration == claim.value.generation
      case Uncertain(at, reasonBytes) => at != 0 && 0 < reasonBytes <= MAX_UNCERTAINTY_REASON_BYTES
      case _ => true
    }
  }

  const MAX_UNCERTAINTY_REASON_BYTES: nat := 2_048
  const MAX_OUTPUTS: nat := 256

  /** Usage reported with a terminal event; `otherDimensions` is whether tokens, currency and
      nested invocation counts are within the accepted limits. */
  datatype Usage = Usage(
    durationMs: Option<u64>,
    costMicros: Option<u64>,
    nestedArtifactBytes: Option<u64>,
    otherDimensions: bool)

  datatype Event =
    | Progress(detail: nat)
    | Output(name: nat, artifact: nat, size: Option<u64>)
    | Final(outcome: nat, usage: Option<Usage>)

  datatype Observation = Observation(execution: ExecutionId, sequence: u64, event: Event, observedAt: u64)

  predicate ObservationValid(o: Observation) {
    o.sequence != 0 && o.observedAt != 0
  }

  /** The rolling observation digest. It is a free chain, so it stands for a digest without
      collisions: the chain determines the documents it was linked over. */
  datatype HistoryDigest = Genesis | Link(previous: HistoryDigest, document: Observation)

  /** The documents a digest was linked over, oldest first. */
  function Log(digest: HistoryDigest): seq<Observation> {
    match digest
    case Genesis => []
    case Link(previous, document) => Log(previous) + [document]
  }

  /** The left fold of the link function over a log: the partner of `Log`. */
  function Chain(log: seq<Observation>): HistoryDigest {
    if log == [] then Genesis else Link(Chain(log[..|log| - 1]), log[|log| - 1])
  }

  lemma {:induction false} ChainOfLog(digest: HistoryDigest)
    ensures Chain(Log(digest)) == digest
  {
    match digest
    case Genesis =>
    case Link(previous, document) =>
      ChainOfLog(previous);
      assert Log(digest)[..|Log(digest)| - 1] == Log(previous);
  }

  lemma {:induction false} LogOfChain(log: seq<Observation>)
    ensures Log(Chain(log)) == log
  {
    if log != [] {
      LogOfChain(log[..|log| - 1]);
    }
  }

  function OutputBytes(log: seq<Observation>): nat {
    if log == [] then 0
    else OutputBytes(log[..|log| - 1]) + EventBytes(log[|log| - 1].event)
  }

  function EventBytes(event: Event): nat {
    if event.Output? && event.size.Some? then event.size.value else 0
  }

  function Outputs(log: seq<Observation>): seq<Observation> {
    if log == [] then []
    else Outputs(log[..|log| - 1]) + (if log[|log| - 1].event.Output? then [log[|log| - 1]] else [])
  }

  datatype CancellationRequest = CancellationRequest(
    requestId: RequestId, execution: ExecutionId, sequence: u64, reason: nat, reasonBytes: nat)

  datatype Acknowledgement = Acknowledgement(requestId: RequestId, execution: ExecutionId, disposition: nat)

  datatype Cancellation = Cancellation(
    request: CancellationRequest,
    requestedAt: u64,
    acknowledgement: Option<Acknowledgement>,
    acknowledgedAt: Option<u64>)

  /** Cancellation facts name the execution that keeps them. */
  predicate CancellationTargets(cancellation: Option<Cancellation>, execution: ExecutionId) {
    cancellation.Some? ==>
      && cancellation.value.request.execution == execution
      && (cancellation.value.acknowledgement.Some? ==> cancellation.value.acknowledgement.value.execution == execution)
  }

  datatype Accounting = Accounting(
    outputs: u32,
    observations: u32,
    artifactBytes: u64,
    durationMs: Option<u64>,
    costMicros: Option<u64>)

  datatype Record = Record(
    caller: CallerId,
    relationshipGeneration: u64,
    request: Request,
    execution: ExecutionId,
    acceptanceSequence: u64,
    acceptedAt: u64,
    phase: Phase,
    cancellation: Option<Cancellation>,
    lastSequence: u64,
    accounting: Accounting,
    digest: HistoryDigest,
    revision: u64)
  {
    function History(): seq<Observation> { Log(digest) }
  }

  /** The stored-record checks repeated on every read and write of a hot record. */
  predicate RecordValid(r: Record) {
    && RequestValid(r.request)
    && r.relationshipGeneration != 0
    && r.acceptanceSequence != 0
    && r.acceptedAt != 0
    && r.revision != 0
    && r.accounting.observations == r.lastSequence
    && r.lastSequence <= r.request.limits.observations
    && r.accounting.outputs <= MAX_OUTPUTS
    && r.accounting.outputs <= r.accounting.observations
    && r.accounting.artifactBytes <= r.request.limits.artifactBytes
    && r.request.inputBytes <= r.accounting.artifactBytes
    && r.caller == r.request.caller
    && (r.phase.Terminal? ==> r.phase.sequence == r.lastSequence)
    && (r.phase.IsActive() ==> (r.phase.CancellationRequested? <==> r.cancellation.Some?))
  }

  /** A log that is gap-free, owned by one execution and ends at its only terminal event. */
  ghost predicate LogWellFormed(log: seq<Observation>, execution: ExecutionId) {
    && (forall i :: 0 <= i < |log| ==>
          ObservationValid(log[i]) && log[i].execution == execution && log[i].sequence == i + 1)
    && (forall i :: 0 <= i < |log| && log[i].event.Output? ==> log[i].event.size.Some?)
    && (forall i :: 0 <= i < |log| - 1 ==> !log[i].event.Final?)
  }

  ghost predicate Ended(log: seq<Observation>) {
    log != [] && log[|log| - 1].event.Final?
  }

  /** What every hot record satisfies beyond `RecordValid`: its counters are the measures of its
      own history, the history respects the accepted quota, and the phase tells how far it got. */
  ghost predicate RecordSound(r: Record) {
    var log := r.History();
    && RecordValid(r)
    && r.phase.WellFormed()
    && LogWellFormed(log, r.execution)
    && |log| == r.lastSequence
    && |Outputs(log)| == r.accounting.outputs
    && r.accounting.artifactBytes == r.request.inputBytes + OutputBytes(log)
    && (r.phase.Terminal? <==> Ended(log))
    && (r.phase.Terminal? ==> r.phase.terminalAt == log[|log| - 1].observedAt)
    && (!r.phase.Terminal? ==> |log| < r.request.limits.observations)
    && (r.phase.IsPreEntry() ==> log == [])
    && CancellationTargets(r.cancellation, r.execution)
    && ChargedAsReported(r)
  }

  /** Time and cost are those the terminal observation reported, within the accepted limits, and nothing
      is charged before it. */
  ghost predicate ChargedAsReported(r: Record) {
    var log := r.History();
    if Ended(log) && log[|log| - 1].event.usage.Some? then
      && r.accounting.durationMs == log[|log| - 1].event.usage.value.durationMs
      && r.accounting.costMicros == log[|log| - 1].event.usage.value.costMicros
      && (r.accounting.durationMs.Some? ==> r.accounting.durationMs.value <= r.request.limits.durationMs)
      && (r.accounting.costMicros.Some? ==> r.accounting.costMicros.value <= r.request.limits.costMicros)
    else r.accounting.durationMs.None? && r.accounting.costMicros.None?
  }

  datatype Disposition =
    | Finished(observation: Observation)
    | Unresolved(uncertainAt: u64, reasonBytes: nat)

  datatype Tombstone = Tombstone(
    caller: CallerId,
    relationshipGeneration: u64,
    requestId: RequestId,
    requestDigest: DigestText,
    execution: ExecutionId,
    acceptanceSequence: u64,
    acceptedAt: u64,
    disposition: Disposition,
    cancellation: Option<Cancellation>,
    lastSequence: u64,
    digest: HistoryDigest,
    accounting: Accounting,
    outputs: seq<Observation>,
    archivedAt: u64)

  /** The stored-tombstone checks: the retained outputs are ordered, owned and counted, and the
      outcome is not later than the archival. */
  predicate TombstoneValid(d: Tombstone) {
    && |d.outputs| == d.accounting.outputs <= MAX_OUTPUTS
    && (forall i :: 0 <= i < |d.outputs| ==>
          && ObservationValid(d.outputs[i]) && d.outputs[i].execution == d.execution
          && d.outputs[i].sequence <= d.lastSequence && d.outputs[i].event.Output?
          && (i > 0 ==> d.outputs[i - 1].sequence < d.outputs[i].sequence))
    && d.relationshipGeneration != 0 && d.acceptanceSequence != 0 && d.acceptedAt != 0 && d.archivedAt != 0
    && d.accounting.observations == d.lastSequence
    && (match d.disposition
        case Finished(o) =>
          && ObservationValid(o) && o.execution == d.execution && o.sequence == d.lastSequence
          && o.event.Final? && o.observedAt <= d.archivedAt
        case Unresolved(at, reasonBytes) => 0 < at <= d.archivedAt && 0 < reasonBytes <= MAX_UNCERTAINTY_REASON_BYTES)
    && CancellationTargets(d.cancellation, d.execution)
  }

  /** A tombstone keeps the whole digest, every output and the final event of its history. */
  ghost predicate TombstoneSound(t: Tombstone) {
    var log := Log(t.digest);
    && TombstoneValid(t)
    && LogWellFormed(log, t.execution)
    && |log| == t.lastSequence == t.accounting.observations
    && t.outputs == Outputs(log)
    && t.acceptedAt != 0
    && (t.disposition.Finished? <==> Ended(log))
    && (t.disposition.Finished? ==> t.disposition.observation == log[|log| - 1])
  }
}
