/** The managed-resource store: changes that survive failure and recovery, protected policies, and the
    holds of accepted work. */
module ManagedStore {
  import opened Prelude
  import opened ManagedTypes
  import opened Sums

  datatype Action =
    | Publish(evaluation: EvaluationId)
    | Recover
    | Evaluate(artifact: Digest)
    | OtherAction(detail: nat)

  /** `wellFormed` is the document check of a request. */
  datatype Request = Request(
    installation: InstallationName, command: nat, expectedVersion: u64, action: Action, wellFormed: bool)

  datatype Receipt = Receipt(request: Request, authorization: Authorization, version: u64)

  datatype ReceiptKey = ReceiptKey(actor: nat, command: nat)

  datatype TransitionKey = TransitionKey(name: InstallationName, identity: Digest)

  datatype Tables = Tables(
    installations: map<InstallationName, Record>,
    active: set<InstallationName>,
    transitions: map<TransitionKey, Transition>,
    receipts: map<ReceiptKey, Receipt>,
    evaluations: map<EvaluationId, Evaluation>,
    pendingEvaluations: set<EvaluationId>)

  const EMPTY: Tables := Tables(map[], {}, map[], map[], map[], {})

  datatype Error = Invalid | Conflict | Busy | Exhausted

  // ---- The invariant ----

  ghost predicate Consistent(t: Tables, completed: map<InstallationName, Transition>) {
    && (forall n :: n in t.installations ==>
          && t.installations[n].name == n
          && RecordSound(t.installations[n], t.evaluations)
          && CurrentFrom(t.installations[n], Lookup(completed, n)))
    && (forall n :: n in t.active <==> n in t.installations && !t.installations[n].removed)
    && (forall n :: n in t.installations && t.installations[n].pending.Some? ==>
          var key := TransitionKey(n, t.installations[n].pending.value.change.identity);
          key in t.transitions && t.transitions[key] == t.installations[n].pending.value)
    && (forall n :: n in completed ==> n in t.installations)
    && EvaluationsSound(t.evaluations, t.pendingEvaluations)
  }

  ghost predicate EvaluationsSound(evaluations: map<EvaluationId, Evaluation>, pending: set<EvaluationId>) {
    && (forall id :: id in evaluations ==> evaluations[id].identity == id && evaluations[id].wellFormed)
    && (forall id :: id in pending <==> id in evaluations && !evaluations[id].complete)
  }

  ghost function Lookup(completed: map<InstallationName, Transition>, n: InstallationName): Option<Transition> {
    if n in completed then Some(completed[n]) else None
  }

  /** What no transaction undoes. */
  ghost predicate Evolves(t: Tables, u: Tables) {
    && (forall n :: n in t.installations ==>
          && n in u.installations && RecordAdvances(t.installations[n], u.installations[n])
          && Earned(t.installations[n], u.installations[n], u.evaluations))
    && (forall k :: k in t.receipts ==> k in u.receipts && u.receipts[k] == t.receipts[k])
    && (forall id :: id in t.evaluations ==>
          && id in u.evaluations && u.evaluations[id].subject == t.evaluations[id].subject
          && (t.evaluations[id].complete ==> u.evaluations[id] == t.evaluations[id]))
  }

  /** A protected candidate that was replaced carries a stored, complete evaluation of this very
      installation that passed its policy. */
  ghost predicate Earned(a: Record, b: Record, evaluations: map<EvaluationId, Evaluation>) {
    a.current.Some? && a.current.value.protection.Some? && b.current.Some?
    && b.current.value.protection != a.current.value.protection ==>
      && b.current.value.protection.Some? && b.current.value.protection.value.evidence.Some?
      && var evidence := b.current.value.protection.value.evidence.value;
      && evidence.identity in evaluations && evaluations[evidence.identity] == evidence && evidence.complete
      && evidence.subject.target == a.name && Certified(a.current.value.protection.value.policy, evidence)
  }

  lemma EarnedTransitive(
    a: Record, b: Record, c: Record, evaluations: map<EvaluationId, Evaluation>, later: map<EvaluationId, Evaluation>)
    requires RecordAdvances(a, b) && RecordAdvances(b, c) && Earned(a, b, evaluations) && Earned(b, c, later)
    requires forall id :: id in evaluations && evaluations[id].complete ==> id in later && later[id] == evaluations[id]
    ensures Earned(a, c, later)
  {
    hide Certified;
  }

  lemma Unchanged(t: Tables)
    ensures Evolves(t, t)
  {
  }

  lemma EvolvesTransitive(t: Tables, u: Tables, v: Tables)
    requires Evolves(t, u) && Evolves(u, v)
    ensures Evolves(t, v)
  {
    forall n | n in t.installations
      ensures n in v.installations && RecordAdvances(t.installations[n], v.installations[n])
      ensures Earned(t.installations[n], v.installations[n], v.evaluations)
    {
      AdvancesTransitive(t.installations[n], u.installations[n], v.installations[n]);
      EarnedTransitive(t.installations[n], u.installations[n], v.installations[n], u.evaluations, v.evaluations);
    }
    hide RecordAdvances, Earned;
  }

  lemma AdvancesTransitive(a: Record, b: Record, c: Record)
    requires RecordAdvances(a, b) && RecordAdvances(b, c)
    ensures RecordAdvances(a, c)
  {
  }

  // ---- Writing one record ----

  /** Stores a record with its active membership. */
  function Put(t: Tables, r: Record): Tables {
    t.(installations := t.installations[r.name := r],
       active := if r.removed then t.active - {r.name} else t.active + {r.name})
  }

  function SaveTransition(t: Tables, r: Record, p: Transition): Tables {
    t.(transitions := t.transitions[TransitionKey(r.name, p.change.identity) := p])
  }

  /** Writing one sound record keeps the store sound. */
  lemma PutKeeps(t: Tables, u: Tables, r: Record, completed: map<InstallationName, Transition>, finished: Option<Transition>)
    requires Consistent(t, completed) && RecordSound(r, t.evaluations)
    requires u.installations == t.installations[r.name := r]
    requires u.active == if r.removed then t.active - {r.name} else t.active + {r.name}
    requires u.evaluations == t.evaluations && u.pendingEvaluations == t.pendingEvaluations
    requires u.transitions == t.transitions
             || exists p: Transition :: u.transitions == t.transitions[TransitionKey(r.name, p.change.identity) := p]
    requires r.pending.Some? ==>
               TransitionKey(r.name, r.pending.value.change.identity) in u.transitions
               && u.transitions[TransitionKey(r.name, r.pending.value.change.identity)] == r.pending.value
    requires CurrentFrom(r, if finished.Some? then finished else Lookup(completed, r.name))
    ensures Consistent(u, if finished.Some? then completed[r.name := finished.value] else completed)
  {
    hide RecordSound, EvaluationsSound, CurrentFrom;
  }

  lemma PutEvolves(t: Tables, u: Tables, r: Record)
    requires u.installations == t.installations[r.name := r]
    requires r.name in t.installations ==> RecordAdvances(t.installations[r.name], r) && Earned(t.installations[r.name], r, t.evaluations)
    requires forall k :: k in t.receipts ==> k in u.receipts && u.receipts[k] == t.receipts[k]
    requires u.evaluations == t.evaluations
    ensures Evolves(t, u)
  {
    hide Inherits, Certified;
    forall n | n in t.installations
      ensures RecordAdvances(t.installations[n], u.installations[n]) && Earned(t.installations[n], u.installations[n], u.evaluations)
    {
      if n != r.name {
        SameAdvances(t.installations[n]);
      }
    }
  }

  lemma SameAdvances(r: Record)
    ensures RecordAdvances(r, r)
  {
  }

  // ---- Evaluations ----

  /** The setups that may follow another still may when more evaluations are known. */
  lemma MoreEvaluations(r: Record, evaluations: map<EvaluationId, Evaluation>, more: map<EvaluationId, Evaluation>)
    requires RecordSound(r, evaluations)
    requires forall id :: id in evaluations && evaluations[id].complete ==> id in more && more[id] == evaluations[id]
    ensures RecordSound(r, more)
  {
  }

  lemma EvaluationKeeps(t: Tables, u: Tables, evidence: Evaluation, completed: map<InstallationName, Transition>)
    requires Consistent(t, completed)
    requires evidence.identity in t.evaluations ==> !t.evaluations[evidence.identity].complete
    requires evidence.wellFormed
    requires u.installations == t.installations && u.active == t.active && u.transitions == t.transitions
    requires u.evaluations == t.evaluations[evidence.identity := evidence]
    requires u.pendingEvaluations
             == if evidence.complete then t.pendingEvaluations - {evidence.identity} else t.pendingEvaluations + {evidence.identity}
    ensures Consistent(u, completed)
  {
    hide RecordSound, CurrentFrom, EvaluationsSound;
    forall n | n in t.installations
      ensures RecordSound(t.installations[n], u.evaluations)
    {
      MoreEvaluations(t.installations[n], t.evaluations, u.evaluations);
    }
    EvaluationAdded(t.evaluations, t.pendingEvaluations, evidence);
  }

  lemma EvaluationAdded(evaluations: map<EvaluationId, Evaluation>, pending: set<EvaluationId>, evidence: Evaluation)
    requires EvaluationsSound(evaluations, pending) && evidence.wellFormed
    ensures EvaluationsSound(
              evaluations[evidence.identity := evidence],
              if evidence.complete then pending - {evidence.identity} else pending + {evidence.identity})
  {
  }

  // ---- Beginning a change ----

  /** A command key answers only the request and authority scope that first used it. */
  predicate SameScope(prior: Receipt, request: Request, authorization: Authorization) {
    && prior.request == request
    && prior.authorization.actor == authorization.actor
    && prior.authorization.grant == authorization.grant
    && prior.authorization.scope == authorization.scope
  }

  predicate Acceptable(request: Request, authorization: Authorization, change: Change) {
    && request.wellFormed && authorization.allows && change.candidate.wellFormed
    && 0 < |change.steps| <= MAX_STEPS && change.canonicalIdentity && change.generation != 0
  }

  /** The protected-policy check of a change on top of a verified setup. */
  function ProtectedError(evaluations: map<EvaluationId, Evaluation>, current: Setup, generation: u64, request: Request,
                          authorization: Authorization, change: Change): Option<Error>
  {
    if current.protection.None? then
      if change.candidate.protection.Some? then Some(Conflict) else None
    else if change.candidate.protection.None? then Some(Conflict)
    else
      var protected, candidate := current.protection.value, change.candidate.protection.value;
      if candidate.agreement != protected.agreement || candidate.policy != protected.policy
         || change.candidate.recipe != current.recipe then Some(Conflict)
      else if request.action.Publish? then
        if request.action.evaluation !in evaluations then Some(Conflict)
        else
          var evidence := evaluations[request.action.evaluation];
          if evidence.identity != request.action.evaluation || !evidence.wellFormed then Some(Invalid)
          else if !Passes(protected.policy, evidence, authorization.evaluatedAt) then Some(Invalid)
          else if change.entryAuthorization != Some(authorization)
                  || evidence.subject.generation != generation
                  || candidate.evidence != Some(evidence)
                  || evidence.subject.target != request.installation
                  || evidence.subject.generation + 1 != change.generation
                  || evidence.subject.configuration != current.recipe then Some(Conflict)
          else None
      else if candidate != protected then Some(Conflict)
      else None
  }

  predicate Checked(evaluations: map<EvaluationId, Evaluation>, current: Setup, generation: u64, request: Request,
                    authorization: Authorization, change: Change)
  {
    && MayFollow(current, change, request.installation, generation, evaluations)
    && (current.protection.Some? ==>
          if request.action.Publish? then
            && Published(current, change, request.installation, generation, evaluations)
            && change.entryAuthorization == Some(authorization)
            && change.candidate.protection.value.evidence.value.identity == request.action.evaluation
          else change.candidate.protection == current.protection)
  }

  /** A change passes the check exactly when it may follow the setup and a publication carries the
      very evaluation it names; anything but a publication leaves the protected candidate alone. */
  lemma CheckedMayFollow(evaluations: map<EvaluationId, Evaluation>, current: Setup, generation: u64, request: Request,
                         authorization: Authorization, change: Change)
    requires EvaluationsSound(evaluations, set id | id in evaluations && !evaluations[id].complete)
    requires current.ownership == change.candidate.ownership && current.platformOwner == change.candidate.platformOwner
    ensures ProtectedError(evaluations, current, generation, request, authorization, change).None? <==>
              Checked(evaluations, current, generation, request, authorization, change)
  {
  }

  lemma OtherOwners(evaluations: map<EvaluationId, Evaluation>, current: Setup, generation: u64, request: Request,
                    authorization: Authorization, change: Change)
    requires current.ownership != change.candidate.ownership || current.platformOwner != change.candidate.platformOwner
    ensures !Checked(evaluations, current, generation, request, authorization, change)
  {
  }

  lemma NotPending(t: Tables, completed: map<InstallationName, Transition>, id: EvaluationId)
    requires Consistent(t, completed) && id in t.evaluations && t.evaluations[id].complete
    ensures t.pendingEvaluations == t.pendingEvaluations - {id}
  {
    hide RecordSound, CurrentFrom;
  }

  const NEW_VERSION: u64 := 0

  function NewRecord(name: InstallationName): Record {
    Record(name, NEW_VERSION, 0, None, None, None, false, false, false, map[])
  }

  /** The record after a change was begun or resumed. */
  ghost predicate Begun(t: Tables, r: Record, request: Request, change: Change) {
    var n := request.installation;
    var a := if n in t.installations then t.installations[n] else NewRecord(n);
    && !a.removed && a.version == request.expectedVersion < U64_MAX
    && r == a.(pending := r.pending, admissionOpen := false, version := a.version + 1)
    && r.name == n
    && (if request.action.Recover? then
          && a.pending.Some? && a.pending.value.phase.Uncertain? && a.pending.value.change == change
          && r.pending == Some(a.pending.value.(phase := Pending))
        else
          && a.pending.None? && a.uses == map[] && r.pending == Some(Transition(change, 0, [], Pending))
          && (a.current.Some? ==> MayFollow(a.current.value, change, n, a.generation, t.evaluations)))
  }

  /** The installation takes this change now: at the expected version, not removed, and either an
      uncertain change is resumed unchanged or nothing is in progress or in use and the change may
      follow the verified setup. */
  predicate MayBegin(t: Tables, request: Request, authorization: Authorization, change: Change) {
    var n := request.installation;
    var a := if n in t.installations then t.installations[n] else NewRecord(n);
    && !a.removed && a.version == request.expectedVersion < U64_MAX
    && if request.action.Recover? then
         a.pending.Some? && a.pending.value.phase.Uncertain? && a.pending.value.change == change
       else
         && a.pending.None? && a.uses == map[]
         && (a.current.Some? ==> Checked(t.evaluations, a.current.value, a.generation, request, authorization, change))
  }

  /** A change is answered: from its receipt, or because the installation takes it and there is room. */
  predicate Answered(t: Tables, maximumActive: u32, request: Request, authorization: Authorization, change: Change) {
    && Acceptable(request, authorization, change)
    && var key := ReceiptKey(authorization.actor, request.command);
       if key in t.receipts then SameScope(t.receipts[key], request, authorization)
       else (request.installation in t.installations || |t.active| < maximumActive) && MayBegin(t, request, authorization, change)
  }

  /** Where the installation is protected, the evaluation a publication names is stored, certified under
      its policy, valid when authorized, about this very installation, generation and recipe, and the
      evidence the candidate carries. */
  ghost predicate PublishesCertified(t: Tables, request: Request, authorization: Authorization, change: Change)
    requires request.installation in t.installations && request.action.Publish?
  {
    var a := t.installations[request.installation];
    a.current.Some? && a.current.value.protection.Some? ==>
      && request.action.evaluation in t.evaluations
      && var evidence := t.evaluations[request.action.evaluation];
      && Certified(a.current.value.protection.value.policy, evidence)
      && evidence.startedAt <= authorization.evaluatedAt < evidence.expiresAt
      && evidence.subject.target == request.installation && evidence.subject.generation == a.generation
      && evidence.subject.configuration == a.current.value.recipe && change.generation == a.generation + 1
      && change.entryAuthorization == Some(authorization)
      && change.candidate.protection == Some(a.current.value.protection.value.(evidence := Some(evidence)))
      && change.candidate.recipe == a.current.value.recipe && change.candidate.ownership == a.current.value.ownership
      && change.candidate.platformOwner == a.current.value.platformOwner
  }

  lemma PublicationIsCertified(t: Tables, request: Request, authorization: Authorization, change: Change)
    requires MayBegin(t, request, authorization, change) && request.installation in t.installations && request.action.Publish?
    ensures PublishesCertified(t, request, authorization, change)
  {
    hide Passes, Certified;
    var a := t.installations[request.installation];
    if a.current.Some? && a.current.value.protection.Some? {
      PassesExactly(a.current.value.protection.value.policy, change.candidate.protection.value.evidence.value, authorization.evaluatedAt);
    }
  }

  ghost predicate Began(t: Tables, u: Tables, request: Request, change: Change) {
    && request.installation in u.installations
    && u.installations == t.installations[request.installation := u.installations[request.installation]]
    && u.evaluations == t.evaluations
    && Begun(t, u.installations[request.installation], request, change)
  }

  datatype Op =
    | Begin(request: Request, authorization: Authorization, change: Change)
    | Advance(name: InstallationName, transition: Digest, step: nat, observation: Observation)
    | Fail(name: InstallationName, transition: Digest, step: nat, diagnosticBytes: nat)
    | Hold(name: InstallationName, use: UseId, generation: u64)
    | GiveBack(name: InstallationName, use: UseId)
    | StartEvaluation(request: Request, authorization: Authorization, evidence: Evaluation)
    | CompleteEvaluation(evidence: Evaluation)

  /** The callback is for the step the installation is at, uncertain or not. */
  predicate Awaits(t: Tables, name: InstallationName, transition: Digest, step: nat) {
    && name in t.installations && t.installations[name].pending.Some? && t.installations[name].version < U64_MAX
    && t.installations[name].pending.value.change.identity == transition
    && t.installations[name].pending.value.nextStep == step
  }

  /** The callback is for the step the installation waits for. */
  predicate Expects(t: Tables, name: InstallationName, transition: Digest, step: nat) {
    Awaits(t, name, transition, step) && t.installations[name].pending.value.phase.Pending?
  }

  /** The installation is open at this generation and can take one more hold. */
  predicate MayHold(t: Tables, name: InstallationName, use: UseId, generation: u64) {
    && name in t.installations
    && var a := t.installations[name];
    && a.admissionOpen && a.pending.None? && !a.removed && a.generation == generation && a.version < U64_MAX
    && use !in a.uses && |a.uses| < MAX_MANAGED_USES
  }

  /** A well-formed evaluation request that starts incomplete and names its own subject. */
  predicate Evaluable(request: Request, authorization: Authorization, evidence: Evaluation) {
    && request.wellFormed && authorization.allows && evidence.wellFormed
    && request.action.Evaluate? && !evidence.complete
    && request.action.artifact == evidence.subject.artifact && evidence.subject.target == request.installation
  }

  /** The evidence is about the protected target as it is now, and there is room for it. */
  predicate MayEvaluate(t: Tables, maximumPendingEvaluations: u32, request: Request, evidence: Evaluation) {
    && request.installation in t.installations
    && var a := t.installations[request.installation];
    && a.current.Some? && a.current.value.protection.Some?
    && a.version == request.expectedVersion && a.generation == evidence.subject.generation && !a.removed && a.pending.None?
    && a.current.value.recipe == evidence.subject.configuration
    && a.current.value.protection.value.agreement == evidence.subject.agreement
    && a.current.value.protection.value.policy.digest == evidence.subject.policy
    && |t.pendingEvaluations| < maximumPendingEvaluations && evidence.identity !in t.evaluations
  }

  /** The evidence completes what was accepted, or is the completed evidence again. */
  predicate Completes(t: Tables, evidence: Evaluation) {
    && evidence.wellFormed && evidence.identity in t.evaluations && evidence.complete
    && var stored := t.evaluations[evidence.identity];
       if stored.complete then stored == evidence
       else
         && stored.subject == evidence.subject && stored.startedAt == evidence.startedAt && stored.expiresAt == evidence.expiresAt
         && |stored.checks| == |evidence.checks|
         && forall i :: 0 <= i < |stored.checks| ==> stored.checks[i].name == evidence.checks[i].name
  }

  /** A transition with its last observation. */
  function Done(p: Transition, observation: Observation): Transition {
    p.(evidence := p.evidence + [observation], nextStep := p.nextStep + 1, phase := Complete)
  }

  /** The record after one more observation: nothing but the change in progress moves until every step
      is observed; then the candidate, and only it, becomes current. */
  ghost predicate StepTaken(a: Record, b: Record, observation: Observation) {
    && a.pending.Some? && var p := a.pending.value;
    && a.version < U64_MAX && b.version == a.version + 1 && b.name == a.name && b.uses == a.uses
    && b.observation == Some(observation)
    && if p.nextStep + 1 == |p.change.steps| then
         && b.pending.None? && b.current == Some(p.change.candidate) && b.generation == p.change.generation
         && b.removed == p.change.removing && b.desiredRunning == p.change.running && b.admissionOpen == !p.change.removing
       else
         && b.pending == Some(p.(evidence := p.evidence + [observation], nextStep := p.nextStep + 1))
         && b.current == a.current && b.generation == a.generation && b.removed == a.removed
         && b.desiredRunning == a.desiredRunning && b.admissionOpen == a.admissionOpen
  }

  class ManagedStore {
    const maximumActive: u32
    const maximumPendingEvaluations: u32
    var tables: Tables
    ghost var completed: map<InstallationName, Transition>

    constructor (maximumActive: u32, maximumPendingEvaluations: u32)
      ensures tables == EMPTY && Consistent(tables, completed)
    {
      this.maximumActive, this.maximumPendingEvaluations := maximumActive, maximumPendingEvaluations;
      tables, completed := EMPTY, map[];
    }

    /** Begins a change, or resumes an uncertain one unchanged. */
    method BeginChange(request: Request, authorization: Authorization, change: Change) returns (result: Result<Receipt, Error>)
      requires Consistent(tables, completed)
      modifies this
      ensures Consistent(tables, completed) && completed == old(completed) && Evolves(old(tables), tables)
      ensures result.Err? ==> tables == old(tables)
      ensures result.Ok? <==> Answered(old(tables), maximumActive, request, authorization, change)
      ensures result.Ok? ==>
                && request.wellFormed && authorization.allows && change.candidate.wellFormed && change.canonicalIdentity
                && 0 < |change.steps| <= 16 && change.generation != 0
      ensures Acceptable(request, authorization, change) && ReceiptKey(authorization.actor, request.command) in old(tables).receipts ==>
                var prior := old(tables).receipts[ReceiptKey(authorization.actor, request.command)];
                tables == old(tables) && result == if SameScope(prior, request, authorization) then Ok(prior) else Err(Conflict)
      ensures result.Ok? && ReceiptKey(authorization.actor, request.command) !in old(tables).receipts ==>
                && Acceptable(request, authorization, change) && Began(old(tables), tables, request, change)
                && result.value == Receipt(request, authorization, request.expectedVersion + 1)
                && tables.receipts == old(tables).receipts[ReceiptKey(authorization.actor, request.command) := result.value]
      ensures result.Ok? && ReceiptKey(authorization.actor, request.command) in old(tables).receipts ==>
                && result.value.request == request && result.value.authorization.actor == authorization.actor
                && result.value.authorization.grant == authorization.grant && result.value.authorization.scope == authorization.scope
      ensures result.Ok? && ReceiptKey(authorization.actor, request.command) !in old(tables).receipts && request.action.Publish?
              && request.installation in old(tables).installations ==>
                PublishesCertified(old(tables), request, authorization, change)
    {
      hide Consistent, Evolves, RecordSound, CurrentFrom, MayFollow, Inherits;
      Unchanged(tables);
      if !Acceptable(request, authorization, change) { return Err(Invalid); }
      var key := ReceiptKey(authorization.actor, request.command);
      if key in tables.receipts {
        if !SameScope(tables.receipts[key], request, authorization) { return Err(Conflict); }
        return Ok(tables.receipts[key]);
      }
      if request.installation !in tables.installations && |tables.active| >= maximumActive {
        return if request.expectedVersion != NEW_VERSION then Err(Conflict) else Err(Busy);
      }
      var prepared := Prepare(tables, completed, request, authorization, change);
      if prepared.Err? { return Err(prepared.error); }
      if request.action.Publish? && request.installation in tables.installations {
        PublicationIsCertified(tables, request, authorization, change);
      }
      var record := prepared.value;
      var receipt := Receipt(request, authorization, record.version);
      if !RecordValid(record) { assert false; }
      var write := Put(SaveTransition(tables, record, record.pending.value), record).(receipts := tables.receipts[key := receipt]);
      PutKeeps(tables, write, record, completed, None);
      PutEvolves(tables, write, record);
      tables := write;
      return Ok(receipt);
    }

    /** The record a change leaves, or why it is refused. */
    static method Prepare(t: Tables, ghost completed: map<InstallationName, Transition>, request: Request,
                          authorization: Authorization, change: Change)
      returns (result: Result<Record, Error>)
      requires Consistent(t, completed) && Acceptable(request, authorization, change)
      ensures result.Ok? <==> MayBegin(t, request, authorization, change)
      ensures result.Ok? ==>
                && Begun(t, result.value, request, change) && RecordSound(result.value, t.evaluations) && RecordValid(result.value)
                && CurrentFrom(result.value, Lookup(completed, result.value.name))
                && (result.value.name in t.installations ==> RecordAdvances(t.installations[result.value.name], result.value))
    {
      hide Consistent, RecordSound, CurrentFrom, MayFollow, Inherits, RecordAdvances, RecordValid, ProtectedError;
      var name := request.installation;
      var record := if name in t.installations then t.installations[name] else NewRecord(name);
      NameOf(t, completed, name);
      if record.version != request.expectedVersion { return Err(Conflict); }
      if record.removed { return Err(Conflict); }
      if request.action.Recover? {
        if record.pending.None? { return Err(Conflict); }
        if record.pending.value.change != change || !record.pending.value.phase.Uncertain? { return Err(Conflict); }
        record := record.(pending := Some(record.pending.value.(phase := Pending)));
      } else {
        if record.pending.Some? { return Err(Busy); }
        if record.uses != map[] { return Err(Busy); }
        if record.current.Some? && (record.current.value.ownership != change.candidate.ownership
                                    || record.current.value.platformOwner != change.candidate.platformOwner) {
          OtherOwners(t.evaluations, record.current.value, record.generation, request, authorization, change);
          return Err(Conflict);
        }
        record := record.(pending := Some(Transition(change, 0, [], Pending)));
        if record.current.Some? {
          EvaluationsOf(t, completed);
          CheckedMayFollow(t.evaluations, record.current.value, record.generation, request, authorization, change);
          var refusal := ProtectedError(t.evaluations, record.current.value, record.generation, request, authorization, change);
          if refusal.Some? { return Err(refusal.value); }
        }
      }
      if record.version == U64_MAX { return Err(Exhausted); }
      record := record.(admissionOpen := false, version := record.version + 1);
      BegunIsSound(t, completed, request, change, record);
      return Ok(record);
    }

    /** Records the observation of the next step; the last one makes the candidate current. A callback
        for another change, another step or an uncertain change alters nothing. */
    method AdvanceChange(name: InstallationName, transition: Digest, expectedStep: nat, observation: Observation)
      returns (result: Result<Record, Error>)
      requires Consistent(tables, completed)
      modifies this
      ensures Consistent(tables, completed) && Evolves(old(tables), tables)
      ensures result.Err? ==> tables == old(tables) && completed == old(completed)
      ensures result.Ok? <==> ObservationValid(observation) && Expects(old(tables), name, transition, expectedStep)
      ensures result.Ok? ==>
                && StepTaken(old(tables).installations[name], result.value, observation)
                && tables.installations == old(tables).installations[name := result.value]
                && tables.receipts == old(tables).receipts && tables.evaluations == old(tables).evaluations
                && completed == if result.value.pending.None?
                                then old(completed)[name := Done(old(tables).installations[name].pending.value, observation)]
                                else old(completed)
    {
      hide Consistent, Evolves, RecordSound, CurrentFrom, MayFollow, Inherits, RecordAdvances, RecordValid;
      Unchanged(tables);
      if !ObservationValid(observation) { return Err(Invalid); }
      if name !in tables.installations { return Err(Conflict); }
      var record := tables.installations[name];
      NameOf(tables, completed, name);
      if record.pending.None? { return Err(Conflict); }
      var pending := record.pending.value;
      if pending.change.identity != transition || pending.nextStep != expectedStep || !pending.phase.Pending? {
        return Err(Conflict);
      }
      if record.version == U64_MAX { return Err(Exhausted); }
      pending := pending.(evidence := pending.evidence + [observation], nextStep := pending.nextStep + 1);
      var complete := pending.nextStep == |pending.change.steps|;
      if complete {
        pending := pending.(phase := Complete);
      }
      var write := SaveTransition(tables, record, pending);
      if complete {
        record := record.(current := Some(pending.change.candidate), generation := pending.change.generation,
                          removed := pending.change.removing, desiredRunning := pending.change.running,
                          admissionOpen := !pending.change.removing, pending := None);
      } else {
        record := record.(pending := Some(pending));
      }
      record := record.(observation := Some(observation), version := record.version + 1);
      AdvancedIsSound(tables, completed, name, observation, record);
      if !RecordValid(record) { assert false; }
      write := Put(write, record);
      PutKeeps(tables, write, record, completed, if complete then Some(pending) else None);
      PutEvolves(tables, write, record);
      tables := write;
      if complete {
        completed := completed[name := pending];
      }
      return Ok(record);
    }

    /** Marks a change uncertain until someone authorized recovers it. */
    method FailChange(name: InstallationName, transition: Digest, expectedStep: nat, diagnosticBytes: nat)
      returns (result: Result<(), Error>)
      requires Consistent(tables, completed)
      modifies this
      ensures Consistent(tables, completed) && completed == old(completed) && Evolves(old(tables), tables)
      ensures result.Err? ==> tables == old(tables)
      ensures result.Ok? <==> Awaits(old(tables), name, transition, expectedStep)
      ensures result.Ok? ==>
                && var a := old(tables).installations[name];
                && var diagnostic := if diagnosticBytes < MAX_DIAGNOSTIC_BYTES then diagnosticBytes else MAX_DIAGNOSTIC_BYTES;
                && a.version < U64_MAX
                && tables.installations == old(tables).installations[name := a.(
                     pending := Some(a.pending.value.(phase := Uncertain(diagnostic))), version := a.version + 1)]
                && tables.receipts == old(tables).receipts && tables.evaluations == old(tables).evaluations
    {
      hide Consistent, Evolves, RecordSound, CurrentFrom, MayFollow, Inherits, RecordAdvances, RecordValid;
      Unchanged(tables);
      if name !in tables.installations { return Err(Conflict); }
      var record := tables.installations[name];
      NameOf(tables, completed, name);
      if record.pending.None? { return Err(Conflict); }
      var pending := record.pending.value;
      if pending.change.identity != transition || pending.nextStep != expectedStep { return Err(Conflict); }
      if record.version == U64_MAX { return Err(Exhausted); }
      pending := pending.(phase := Uncertain(if diagnosticBytes < MAX_DIAGNOSTIC_BYTES then diagnosticBytes else MAX_DIAGNOSTIC_BYTES));
      record := record.(pending := Some(pending), version := record.version + 1);
      FailedIsSound(tables, completed, name, pending.phase.diagnosticBytes, record);
      if !RecordValid(record) { assert false; }
      var write := Put(SaveTransition(tables, record, pending), record);
      PutKeeps(tables, write, record, completed, None);
      PutEvolves(tables, write, record);
      tables := write;
      return Ok(());
    }

    /** Holds an open installation for accepted work at its current generation. */
    method Acquire(name: InstallationName, use: UseId, generation: u64) returns (result: Result<(), Error>)
      requires Consistent(tables, completed)
      modifies this
      ensures Consistent(tables, completed) && completed == old(completed) && Evolves(old(tables), tables)
      ensures result.Err? ==> tables == old(tables)
      ensures result.Ok? <==> MayHold(old(tables), name, use, generation)
      ensures result.Ok? ==>
                var a := old(tables).installations[name];
                && tables.installations == old(tables).installations[name := a.(uses := a.uses[use := generation], version := a.version + 1)]
                && tables.receipts == old(tables).receipts && tables.evaluations == old(tables).evaluations
    {
      hide Consistent, Evolves, RecordSound, CurrentFrom, MayFollow, Inherits, RecordAdvances, RecordValid;
      Unchanged(tables);
      if name !in tables.installations { return Err(Conflict); }
      var record := tables.installations[name];
      NameOf(tables, completed, name);
      if !record.admissionOpen || record.pending.Some? || record.removed || record.generation != generation
         || |record.uses| >= MAX_MANAGED_USES {
        return Err(Busy);
      }
      if use in record.uses { return Err(Conflict); }
      if record.version == U64_MAX { return Err(Exhausted); }
      SizeAfterAdd(record.uses, use, generation);
      record := record.(uses := record.uses[use := generation], version := record.version + 1);
      UsesAreSound(tables, completed, name, record);
      if !RecordValid(record) { assert false; }
      var write := Put(tables, record);
      PutKeeps(tables, write, record, completed, None);
      PutEvolves(tables, write, record);
      tables := write;
      return Ok(());
    }

    /** Gives back a hold. */
    method ReleaseUse(name: InstallationName, use: UseId) returns (result: Result<(), Error>)
      requires Consistent(tables, completed)
      modifies this
      ensures Consistent(tables, completed) && completed == old(completed) && Evolves(old(tables), tables)
      ensures result.Err? ==> tables == old(tables)
      ensures result.Err? <==>
                && name in old(tables).installations && use in old(tables).installations[name].uses
                && old(tables).installations[name].version == U64_MAX
      ensures result.Ok? && name in old(tables).installations && use in old(tables).installations[name].uses ==>
                var a := old(tables).installations[name];
                && a.version < U64_MAX
                && tables.installations == old(tables).installations[name := a.(uses := a.uses - {use}, version := a.version + 1)]
                && tables.receipts == old(tables).receipts && tables.evaluations == old(tables).evaluations
      ensures !(name in old(tables).installations && use in old(tables).installations[name].uses) ==> tables == old(tables)
    {
      hide Consistent, Evolves, RecordSound, CurrentFrom, MayFollow, Inherits, RecordAdvances, RecordValid;
      Unchanged(tables);
      if name !in tables.installations || use !in tables.installations[name].uses { return Ok(()); }
      var record := tables.installations[name];
      NameOf(tables, completed, name);
      if record.version == U64_MAX { return Err(Exhausted); }
      assert record.uses == (record.uses - {use})[use := record.uses[use]];
      SizeAfterAdd(record.uses - {use}, use, record.uses[use]);
      record := record.(uses := record.uses - {use}, version := record.version + 1);
      UsesAreSound(tables, completed, name, record);
      if !RecordValid(record) { assert false; }
      var write := Put(tables, record);
      PutKeeps(tables, write, record, completed, None);
      PutEvolves(tables, write, record);
      tables := write;
      return Ok(());
    }

    /** Accepts an evaluation of a candidate for a protected target, incomplete. */
    method BeginEvaluation(request: Request, authorization: Authorization, evidence: Evaluation) returns (result: Result<Receipt, Error>)
      requires Consistent(tables, completed)
      modifies this
      ensures Consistent(tables, completed) && completed == old(completed) && Evolves(old(tables), tables)
      ensures result.Err? ==> tables == old(tables)
      ensures result.Ok? <==>
                && Evaluable(request, authorization, evidence)
                && var key := ReceiptKey(authorization.actor, request.command);
                   if key in old(tables).receipts then SameScope(old(tables).receipts[key], request, authorization)
                   else MayEvaluate(old(tables), maximumPendingEvaluations, request, evidence)
      ensures result.Ok? ==> request.wellFormed && authorization.allows && evidence.wellFormed && !evidence.complete
      ensures result.Ok? ==>
                var key := ReceiptKey(authorization.actor, request.command);
                if key in old(tables).receipts then
                  && tables == old(tables) && result.value == old(tables).receipts[key] && result.value.request == request
                  && result.value.authorization.grant == authorization.grant && result.value.authorization.scope == authorization.scope
                else
                  && result.value == Receipt(request, authorization, request.expectedVersion)
                  && tables == old(tables).(
                       evaluations := old(tables).evaluations[evidence.identity := evidence],
                       pendingEvaluations := old(tables).pendingEvaluations + {evidence.identity},
                       receipts := old(tables).receipts[key := result.value])
    {
      hide Consistent, Evolves, RecordSound, CurrentFrom;
      Unchanged(tables);
      if !request.wellFormed || !authorization.allows || !evidence.wellFormed { return Err(Invalid); }
      if !request.action.Evaluate? { return Err(Invalid); }
      if evidence.complete || request.action.artifact != evidence.subject.artifact || evidence.subject.target != request.installation {
        return Err(Invalid);
      }
      var key := ReceiptKey(authorization.actor, request.command);
      if key in tables.receipts {
        if !SameScope(tables.receipts[key], request, authorization) { return Err(Conflict); }
        return Ok(tables.receipts[key]);
      }
      if request.installation !in tables.installations { return Err(Conflict); }
      var record := tables.installations[request.installation];
      if record.current.None? || record.current.value.protection.None? { return Err(Conflict); }
      var protection := record.current.value.protection.value;
      if record.version != request.expectedVersion || record.generation != evidence.subject.generation || record.removed
         || record.pending.Some? || record.current.value.recipe != evidence.subject.configuration
         || protection.agreement != evidence.subject.agreement || protection.policy.digest != evidence.subject.policy {
        return Err(Conflict);
      }
      if |tables.pendingEvaluations| >= maximumPendingEvaluations { return Err(Busy); }
      if evidence.identity in tables.evaluations { return Err(Conflict); }
      var receipt := Receipt(request, authorization, record.version);
      var write := tables.(
        evaluations := tables.evaluations[evidence.identity := evidence],
        pendingEvaluations := tables.pendingEvaluations + {evidence.identity},
        receipts := tables.receipts[key := receipt]);
      EvaluationKeeps(tables, write, evidence, completed);
      EvaluationEvolves(tables, write, evidence);
      tables := write;
      return Ok(receipt);
    }

    /** Completes an evaluation once; a complete one never changes. */
    method FinishEvaluation(evidence: Evaluation) returns (result: Result<(), Error>)
      requires Consistent(tables, completed)
      modifies this
      ensures Consistent(tables, completed) && completed == old(completed) && Evolves(old(tables), tables)
      ensures result.Err? ==> tables == old(tables)
      ensures tables.installations == old(tables).installations && tables.receipts == old(tables).receipts
      ensures result.Ok? <==> Completes(old(tables), evidence)
      ensures result.Ok? ==>
                && tables.evaluations == old(tables).evaluations[evidence.identity := evidence]
                && tables.pendingEvaluations == old(tables).pendingEvaluations - {evidence.identity}
    {
      hide Consistent, Evolves, RecordSound, CurrentFrom;
      Unchanged(tables);
      if !evidence.wellFormed { return Err(Invalid); }
      if evidence.identity !in tables.evaluations { return Err(Conflict); }
      var stored := tables.evaluations[evidence.identity];
      if stored.complete {
        if stored == evidence {
          NotPending(tables, completed, evidence.identity);
          assert tables.evaluations == tables.evaluations[evidence.identity := evidence];
          return Ok(());
        }
        return Err(Conflict);
      }
      if !evidence.complete || stored.subject != evidence.subject || stored.startedAt != evidence.startedAt
         || stored.expiresAt != evidence.expiresAt || |stored.checks| != |evidence.checks|
         || exists i :: 0 <= i < |stored.checks| && stored.checks[i].name != evidence.checks[i].name {
        return Err(Conflict);
      }
      var write := tables.(
        evaluations := tables.evaluations[evidence.identity := evidence],
        pendingEvaluations := tables.pendingEvaluations - {evidence.identity});
      EvaluationKeeps(tables, write, evidence, completed);
      EvaluationEvolves(tables, write, evidence);
      tables := write;
      return Ok(());
    }

    /** One transaction, whatever its outcome. */
    method Apply(op: Op)
      requires Consistent(tables, completed)
      modifies this
      ensures Consistent(tables, completed) && Evolves(old(tables), tables)
    {
      hide *;
      match op {
        case Begin(request, authorization, change) => var _ := BeginChange(request, authorization, change);
        case Advance(name, transition, step, observation) => var _ := AdvanceChange(name, transition, step, observation);
        case Fail(name, transition, step, diagnostic) => var _ := FailChange(name, transition, step, diagnostic);
        case Hold(name, use, generation) => var _ := Acquire(name, use, generation);
        case GiveBack(name, use) => var _ := ReleaseUse(name, use);
        case StartEvaluation(request, authorization, evidence) => var _ := BeginEvaluation(request, authorization, evidence);
        case CompleteEvaluation(evidence) => var _ := FinishEvaluation(evidence);
      }
    }

    /** Any interleaving of begin, advance, fail, recover, holds and evaluations. */
    method Run(ops: seq<Op>)
      requires Consistent(tables, completed)
      modifies this
      ensures Consistent(tables, completed) && Evolves(old(tables), tables)
    {
      hide *;
      Unchanged(tables);
      for i := 0 to |ops|
        invariant Consistent(tables, completed) && Evolves(old(tables), tables)
      {
        ghost var before := tables;
        Apply(ops[i]);
        EvolvesTransitive(old(tables), before, tables);
      }
    }
  }

  lemma NameOf(t: Tables, completed: map<InstallationName, Transition>, n: InstallationName)
    requires Consistent(t, completed)
    ensures n in t.installations ==>
              && t.installations[n].name == n && RecordValid(t.installations[n])
              && (forall u :: u in t.installations[n].uses ==> t.installations[n].uses[u] == t.installations[n].generation)
              && |t.installations[n].uses| <= MAX_MANAGED_USES
              && (t.installations[n].pending.Some? || t.installations[n].removed ==> t.installations[n].uses == map[])
  {
    hide CurrentFrom, EvaluationsSound, MayFollow;
    if n in t.installations {
      assert RecordSound(t.installations[n], t.evaluations);
    }
  }

  lemma EvaluationsOf(t: Tables, completed: map<InstallationName, Transition>)
    requires Consistent(t, completed)
    ensures EvaluationsSound(t.evaluations, set id | id in t.evaluations && !t.evaluations[id].complete)
    ensures EvaluationsSound(t.evaluations, t.pendingEvaluations)
  {
    hide RecordSound, CurrentFrom;
  }

  /** A change begun or resumed on a sound record leaves a sound record that advances it. */
  lemma BegunIsSound(t: Tables, completed: map<InstallationName, Transition>, request: Request, change: Change, r: Record)
    requires Consistent(t, completed) && change.candidate.wellFormed
    requires 0 < |change.steps| <= MAX_STEPS && change.canonicalIdentity && change.generation != 0
    requires Begun(t, r, request, change)
    ensures RecordSound(r, t.evaluations) && RecordValid(r) && CurrentFrom(r, Lookup(completed, r.name))
    ensures r.name in t.installations ==> RecordAdvances(t.installations[r.name], r)
  {
    hide MayFollow, EvaluationsSound;
    var n := request.installation;
    if n in t.installations {
      assert RecordSound(t.installations[n], t.evaluations);
    }
  }

  lemma AdvancedIsSound(t: Tables, completed: map<InstallationName, Transition>, n: InstallationName, o: Observation, r: Record)
    requires Consistent(t, completed) && n in t.installations && ObservationValid(o)
    requires StepTaken(t.installations[n], r, o) && t.installations[n].pending.value.phase.Pending?
    ensures RecordSound(r, t.evaluations) && RecordValid(r) && r.name == n && RecordAdvances(t.installations[n], r)
    ensures CurrentFrom(r, if r.pending.None? then Some(Done(t.installations[n].pending.value, o)) else Lookup(completed, n))
    ensures Earned(t.installations[n], r, t.evaluations)
  {
    hide EvaluationsSound, Published, Earned;
    assert RecordSound(t.installations[n], t.evaluations);
    StepIsEarned(t.installations[n], r, o, t.evaluations);
  }

  lemma StepIsEarned(a: Record, b: Record, o: Observation, evaluations: map<EvaluationId, Evaluation>)
    requires RecordSound(a, evaluations) && StepTaken(a, b, o)
    ensures Earned(a, b, evaluations)
  {
    hide Inherits, RecordValid, Passes;
    if a.current.Some? && a.current.value.protection.Some? && b.current.value.protection != a.current.value.protection {
      var change := a.pending.value.change;
      PassesExactly(a.current.value.protection.value.policy, change.candidate.protection.value.evidence.value,
                    change.entryAuthorization.value.evaluatedAt);
    }
  }

  /** A protected candidate is replaced only by a publication whose stored evidence passed the policy at
      the generation it replaces. */
  lemma OnlyPublicationReplaces(t: Tables, completed: map<InstallationName, Transition>, n: InstallationName, o: Observation, r: Record)
    requires Consistent(t, completed) && n in t.installations && StepTaken(t.installations[n], r, o)
    requires t.installations[n].current.Some? && t.installations[n].current.value.protection.Some?
    requires r.current.Some? && r.current.value.protection != t.installations[n].current.value.protection
    ensures Published(t.installations[n].current.value, t.installations[n].pending.value.change, n, t.installations[n].generation, t.evaluations)
    ensures r.generation == t.installations[n].generation + 1
  {
    hide EvaluationsSound, Published, Inherits;
    assert RecordSound(t.installations[n], t.evaluations);
    PublishedGeneration(t.installations[n].current.value, t.installations[n].pending.value.change, n, t.installations[n].generation, t.evaluations);
  }

  lemma PublishedGeneration(current: Setup, change: Change, n: InstallationName, generation: u64, evaluations: map<EvaluationId, Evaluation>)
    requires current.protection.Some?
    ensures Published(current, change, n, generation, evaluations) ==> change.generation == generation + 1
  {
  }

  lemma FailedIsSound(t: Tables, completed: map<InstallationName, Transition>, n: InstallationName, diagnostic: nat, r: Record)
    requires Consistent(t, completed) && n in t.installations && t.installations[n].pending.Some?
    requires diagnostic <= MAX_DIAGNOSTIC_BYTES && t.installations[n].version < U64_MAX
    requires r == t.installations[n].(
               pending := Some(t.installations[n].pending.value.(phase := Uncertain(diagnostic))), version := t.installations[n].version + 1)
    ensures RecordSound(r, t.evaluations) && RecordValid(r) && r.name == n && RecordAdvances(t.installations[n], r)
    ensures CurrentFrom(r, Lookup(completed, n))
  {
    hide EvaluationsSound, MayFollow;
    assert RecordSound(t.installations[n], t.evaluations);
  }

  lemma UsesAreSound(t: Tables, completed: map<InstallationName, Transition>, n: InstallationName, r: Record)
    requires Consistent(t, completed) && n in t.installations && t.installations[n].version < U64_MAX
    requires var a := t.installations[n];
             && r == a.(uses := r.uses, version := a.version + 1) && |r.uses| <= MAX_MANAGED_USES
             && (forall u :: u in r.uses ==> r.uses[u] == a.generation)
             && (a.pending.Some? || a.removed ==> r.uses == map[])
    ensures RecordSound(r, t.evaluations) && RecordValid(r) && r.name == n && RecordAdvances(t.installations[n], r)
    ensures CurrentFrom(r, Lookup(completed, n))
    ensures r.pending.Some? ==>
              TransitionKey(n, r.pending.value.change.identity) in t.transitions
              && t.transitions[TransitionKey(n, r.pending.value.change.identity)] == r.pending.value
  {
    hide EvaluationsSound, MayFollow;
    assert RecordSound(t.installations[n], t.evaluations);
  }

  lemma EvaluationEvolves(t: Tables, u: Tables, evidence: Evaluation)
    requires u.installations == t.installations
    requires forall k :: k in t.receipts ==> k in u.receipts && u.receipts[k] == t.receipts[k]
    requires u.evaluations == t.evaluations[evidence.identity := evidence]
    requires evidence.identity in t.evaluations ==>
               !t.evaluations[evidence.identity].complete && t.evaluations[evidence.identity].subject == evidence.subject
    ensures Evolves(t, u)
  {
    forall n | n in t.installations
      ensures RecordAdvances(t.installations[n], u.installations[n])
    {
      SameAdvances(t.installations[n]);
    }
    hide RecordAdvances;
  }
}
