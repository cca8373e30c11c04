/** Managed installations: approved setups, protected policies, changes in progress and the facts
    every stored installation satisfies. Identities and digests are only compared. */
module ManagedTypes {
  import opened Prelude

  type Digest = nat
  type InstallationName = nat
  type EvaluationId = nat
  type UseId = nat

  datatype Check = Check(name: nat, passed: Option<bool>)

  datatype Subject = Subject(
    target: InstallationName, generation: u64, configuration: Digest, agreement: Digest, policy: Digest,
    verifier: Digest, producer: nat, artifact: Digest, artifactBytes: u64)

  /** `wellFormed` is the finite-document check of an evaluation. */
  datatype Evaluation = Evaluation(
    identity: EvaluationId, subject: Subject, startedAt: u64, expiresAt: u64, complete: bool, checks: seq<Check>, wellFormed: bool)

  datatype Policy = Policy(
    digest: Digest, verifier: Digest, producer: nat, maximumBytes: u64, validityMs: u64, requiredChecks: seq<nat>, wellFormed: bool)

  /** Whether complete evidence passes a policy at a time. */
  predicate Passes(policy: Policy, evidence: Evaluation, now: u64) {
    && policy.wellFormed && evidence.wellFormed
    && evidence.complete
    && evidence.subject.policy == policy.digest
    && evidence.subject.verifier == policy.verifier
    && evidence.subject.producer == policy.producer
    && evidence.subject.artifactBytes <= policy.maximumBytes
    && evidence.startedAt <= now < evidence.expiresAt
    && evidence.expiresAt - evidence.startedAt == policy.validityMs
    && |evidence.checks| == |policy.requiredChecks|
    && (forall i :: 0 <= i < |evidence.checks| ==>
          evidence.checks[i].name == policy.requiredChecks[i] && evidence.checks[i].passed == Some(true))
  }

  /** What passing means, apart from the time: evidence about this policy, by its verifier on its
      producer's artifact within the size limit, valid for as long as the policy says, with exactly the
      required checks in order, each passed. */
  ghost predicate Certified(policy: Policy, evidence: Evaluation) {
    && evidence.complete
    && evidence.subject.policy == policy.digest && evidence.subject.verifier == policy.verifier
    && evidence.subject.producer == policy.producer && evidence.subject.artifactBytes <= policy.maximumBytes
    && evidence.startedAt < evidence.expiresAt == evidence.startedAt + policy.validityMs
    && evidence.checks == seq(|policy.requiredChecks|, i requires 0 <= i < |policy.requiredChecks| => Check(policy.requiredChecks[i], Some(true)))
  }

  /** Evidence passes exactly when it is certified and the time lies in its validity. */
  lemma PassesExactly(policy: Policy, evidence: Evaluation, now: u64)
    ensures Passes(policy, evidence, now) <==>
              && policy.wellFormed && evidence.wellFormed && Certified(policy, evidence)
              && evidence.startedAt <= now && now < evidence.expiresAt
  {
    var required := seq(|policy.requiredChecks|, i requires 0 <= i < |policy.requiredChecks| => Check(policy.requiredChecks[i], Some(true)));
    if Passes(policy, evidence, now) {
      assert evidence.checks == required;
    }
  }

  datatype Protection = Protection(agreement: Digest, policy: Policy, evidence: Option<Evaluation>)

  /** `rest` stands for mechanism, configuration, resources and capabilities; `wellFormed` for the
      portable bounds of the whole setup. */
  datatype Setup = Setup(
    protection: Option<Protection>, recipe: Digest, platformOwner: nat, ownership: Digest, rest: nat, wellFormed: bool)

  /** An authority decision: who asked, under which grant and scope, when, and whether it allows this
      operation on this installation. */
  datatype Authorization = Authorization(actor: nat, grant: nat, scope: nat, evaluatedAt: u64, allows: bool)

  datatype Change = Change(
    entryAuthorization: Option<Authorization>,
    identity: Digest,
    candidate: Setup,
    generation: u64,
    steps: seq<nat>,
    removing: bool,
    running: bool,
    canonicalIdentity: bool)

  datatype Observation = Observation(digest: Digest, summaryBytes: nat, running: bool, canonical: bool)

  datatype ChangePhase = Pending | Uncertain(diagnosticBytes: nat) | Complete

  datatype Transition = Transition(change: Change, nextStep: nat, evidence: seq<Observation>, phase: ChangePhase)

  /** `uses` maps each accepted use to the generation it is bound to. */
  datatype Record = Record(
    name: InstallationName,
    version: u64,
    generation: u64,
    current: Option<Setup>,
    pending: Option<Transition>,
    observation: Option<Observation>,
    desiredRunning: bool,
    admissionOpen: bool,
    removed: bool,
    uses: map<UseId, u64>)

  const MAX_STEPS: nat := 16
  const MAX_MANAGED_USES: nat := 128
  const MAX_DIAGNOSTIC_BYTES: nat := 512

  predicate ObservationValid(o: Observation) { o.canonical && o.summaryBytes <= 512 }

  predicate TransitionValid(p: Transition) {
    && p.change.candidate.wellFormed
    && (forall i :: 0 <= i < |p.evidence| ==> ObservationValid(p.evidence[i]))
    && 0 < |p.change.steps| <= MAX_STEPS && p.change.canonicalIdentity && p.change.generation != 0
    && (p.phase.Uncertain? ==> p.phase.diagnosticBytes <= MAX_DIAGNOSTIC_BYTES)
    && p.nextStep == |p.evidence| <= |p.change.steps|
  }

  /** The stored-record checks repeated on every read and write. */
  predicate RecordValid(r: Record) {
    && r.version != 0
    && |r.uses| <= MAX_MANAGED_USES
    && (r.admissionOpen ==> !r.removed && r.pending.None? && r.current.Some?)
    && (r.current.Some? ==> r.current.value.wellFormed)
    && (forall u :: u in r.uses ==> r.uses[u] == r.generation)
    && (r.observation.Some? ==> ObservationValid(r.observation.value))
    && (r.pending.Some? ==> TransitionValid(r.pending.value))
  }

  // ---- Which setup may follow another ----

  /** The evidence of a publication: a stored, complete evaluation of this very target, generation and
      recipe that passed the policy when the publication was authorized. */
  predicate Published(current: Setup, change: Change, name: InstallationName, generation: u64, evaluations: map<EvaluationId, Evaluation>)
    requires current.protection.Some?
  {
    && change.candidate.protection.Some? && change.candidate.protection.value.evidence.Some?
    && change.entryAuthorization.Some?
    && var evidence := change.candidate.protection.value.evidence.value;
    && evidence.identity in evaluations && evaluations[evidence.identity] == evidence
    && Passes(current.protection.value.policy, evidence, change.entryAuthorization.value.evaluatedAt)
    && evidence.subject.generation == generation && evidence.subject.target == name
    && evidence.subject.configuration == current.recipe
    && change.generation == generation + 1
  }

  /** The rules of a change on top of a verified setup. */
  predicate MayFollow(current: Setup, change: Change, name: InstallationName, generation: u64, evaluations: map<EvaluationId, Evaluation>) {
    && Inherits(current, change.candidate)
    && (current.protection.Some? && change.candidate.protection != current.protection ==>
          Published(current, change, name, generation, evaluations))
  }

  /** What a setup keeps of its predecessor: owners always; no protection stays no protection; and a
      protected setup keeps agreement, policy and recipe. */
  predicate Inherits(a: Setup, b: Setup) {
    && b.ownership == a.ownership && b.platformOwner == a.platformOwner
    && (a.protection.None? <==> b.protection.None?)
    && (a.protection.Some? ==>
          && b.protection.value.agreement == a.protection.value.agreement
          && b.protection.value.policy == a.protection.value.policy
          && b.recipe == a.recipe)
  }

  // ---- What every installation satisfies ----

  /** Admission is open exactly when there is a verified setup, no change in progress and no removal;
      a change in progress has one observation per finished step and room for the next; it may follow
      the verified setup; and nothing uses an installation under change. */
  ghost predicate RecordSound(r: Record, evaluations: map<EvaluationId, Evaluation>) {
    && RecordValid(r)
    && (r.admissionOpen <==> r.current.Some? && r.pending.None? && !r.removed)
    && (r.current.Some? || r.pending.Some?)
    && (r.current.Some? ==> r.generation != 0)
    && (r.pending.Some? ==> r.pending.value.nextStep < |r.pending.value.change.steps| && !r.pending.value.phase.Complete?)
    && (r.pending.Some? || r.removed ==> r.uses == map[])
    && (r.removed ==> r.pending.None? && r.current.Some?)
    && (r.current.Some? && r.pending.Some? ==>
          MayFollow(r.current.value, r.pending.value.change, r.name, r.generation, evaluations))
  }

  /** The verified setup is the candidate of the last completed change, and every one of its steps
      received exactly one observation. */
  ghost predicate CurrentFrom(r: Record, completed: Option<Transition>) {
    && (r.current.Some? <==> completed.Some?)
    && (completed.Some? ==>
          && completed.value.phase.Complete?
          && |completed.value.evidence| == completed.value.nextStep == |completed.value.change.steps|
          && r.current.value == completed.value.change.candidate
          && r.generation == completed.value.change.generation
          && r.removed == completed.value.change.removing)
    && (completed.None? ==> !r.removed)
  }

  /** How an installation may have moved on. */
  ghost predicate RecordAdvances(a: Record, b: Record) {
    && a.name == b.name && a.version <= b.version
    && (a.removed ==> b.removed && b.current == a.current)
    && (a.current.Some? ==> b.current.Some? && Inherits(a.current.value, b.current.value))
  }
}
