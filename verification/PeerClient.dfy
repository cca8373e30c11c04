/** The submitting peer: three bounded attempts and one lookup against a serving host that others
    use at the same time, over a network that may lose any request or reply. A duplicated or
    delayed request is an operation of the environment. */
module PeerClient {
  import opened Prelude
  import opened PeerTypes
  import opened PeerTables
  import opened PeerEvolution
  import opened PeerTransaction
  import opened PeerCommit
  import opened PeerStore
  import opened PeerServing
  import PeerAdmission

  datatype ClientError = Transport | Unavailable | Protocol | Other
  {
    /** Errors that say nothing about acceptance, so the client tries again. */
    predicate Retryable() { Transport? || Unavailable? }
  }

  /** One exchange: what others do before it, whether the request arrives, what the host meets,
      what others do before the reply, and whether the reply arrives. */
  datatype Trip = Trip(
    renewed: Result<(), ClientError>,
    before: seq<Op>,
    delivered: bool,
    circumstances: Circumstances,
    after: seq<Op>,
    returned: bool,
    lostAs: ClientError,
    errorAs: ClientError)

  /** A lookup that reaches the host, is allowed there, and whose reply comes back. */
  predicate Answered(trip: Trip) {
    && trip.delivered && trip.returned
    && trip.circumstances.authenticated && trip.circumstances.mayInspect && trip.circumstances.withinRate
  }

  /** What a reply names, it names in every later state. */
  lemma NamesStays(t: Tables, u: Tables, request: Request, execution: ExecutionId, acceptedAt: u64)
    requires Consistent(u) && Evolves(t, u) && Names(t, request, execution, acceptedAt)
    ensures Names(u, request, execution, acceptedAt)
  {
    hide RequestsAgree, DocumentsSound, IndexesAgree, RowsAgree, ArtifactsAgree, CountersAgree;
    EvolutionKeepsIdentity(t, u, execution);
  }

  lemma ReplyStaysTrue(t: Tables, u: Tables, request: Request, reply: Reply)
    requires Consistent(u) && Evolves(t, u) && ReplyIsTrue(t, request, reply)
    ensures ReplyIsTrue(u, request, reply)
  {
    hide Consistent, Evolves, Names;
    match reply {
      case AcceptedReply(_, execution, _, acceptedAt, _, _) => NamesStays(t, u, request, execution, acceptedAt);
      case ArchivedReply(_, execution, _, acceptedAt, _) => NamesStays(t, u, request, execution, acceptedAt);
      case RejectedReply(_, _, existing) =>
        if existing.Some? {
          ConflictStays(t, u, request, existing.value);
        }
    }
  }

  lemma ConflictStays(t: Tables, u: Tables, request: Request, e: ExecutionId)
    requires Consistent(u) && Evolves(t, u) && Conflicts(t, request, e)
    ensures Conflicts(u, request, e)
  {
    hide RequestsAgree, DocumentsSound, IndexesAgree, RowsAgree, ArtifactsAgree, CountersAgree;
    EvolutionKeepsIdentity(t, u, e);
  }

  /** One submission attempt over the network. */
  method Post(store: PeerStore, request: Request, trip: Trip) returns (result: Result<Reply, ClientError>)
    requires Consistent(store.tables)
    modifies store
    ensures Consistent(store.tables) && Evolves(old(store.tables), store.tables)
    ensures result.Ok? ==> ReplyIsTrue(store.tables, request, result.value)
    ensures !trip.delivered || !trip.returned ==> result == Err(trip.lostAs)
  {
    hide *;
    store.Run(trip.before);
    if !trip.delivered { return Err(trip.lostAs); }
    ghost var t := store.tables;
    var answer := Invoke(store, request, trip.circumstances);
    EvolvesThrough(old(store.tables), t, store.tables);
    ghost var u := store.tables;
    store.Run(trip.after);
    EvolvesThrough(old(store.tables), u, store.tables);
    if !trip.returned { return Err(trip.lostAs); }
    if answer.Err? { return Err(trip.errorAs); }
    ReplyStaysTrue(u, store.tables, request, answer.value);
    return Ok(answer.value);
  }

  /** One lookup over the network. A reply of absence is about the moment the host answered. */
  method Lookup(store: PeerStore, request: Request, trip: Trip) returns (result: Result<LookupReply, ClientError>, ghost answeredAt: Tables)
    requires Consistent(store.tables)
    modifies store
    ensures Consistent(store.tables) && Evolves(old(store.tables), store.tables)
    ensures Consistent(answeredAt) && Evolves(old(store.tables), answeredAt) && Evolves(answeredAt, store.tables)
    ensures result.Ok? ==>
              var key := RequestKey(request.caller, request.requestId);
              if key in answeredAt.byRequest then
                answeredAt.byRequest[key] in Known(answeredAt)
                && result.value == LookupAnswer(SnapshotOf(answeredAt, answeredAt.byRequest[key]))
              else result.value == NotAccepted(request.requestId)
    ensures result.Ok? ==> LookupValidFor(result.value, request.requestId)
    ensures Answered(trip) ==> result.Ok?
  {
    hide Consistent, Evolves, LookupAnswer, LookupValidFor, SnapshotOf;
    store.Run(trip.before);
    answeredAt := store.tables;
    Unchanged(answeredAt);
    if !trip.delivered { return Err(trip.lostAs), answeredAt; }
    if !trip.circumstances.authenticated || !trip.circumstances.mayInspect || !trip.circumstances.withinRate {
      return Err(trip.errorAs), answeredAt;
    }
    var found := store.ExecutionByRequest(request.caller, request.requestId);
    store.Run(trip.after);
    EvolvesThrough(old(store.tables), answeredAt, store.tables);
    if !trip.returned { return Err(trip.lostAs), answeredAt; }
    if found.Err? { assert false; }
    var reply := if found.value.Some? then LookupAnswer(found.value.value) else NotAccepted(request.requestId);
    AnswerIsBound(answeredAt, request);
    if !LookupValidFor(reply, request.requestId) { assert false; }
    return Ok(reply), answeredAt;
  }

  lemma AnswerIsBound(t: Tables, request: Request)
    requires Consistent(t)
    ensures var key := RequestKey(request.caller, request.requestId);
            key in t.byRequest ==>
              t.byRequest[key] in Known(t) && LookupValidFor(LookupAnswer(SnapshotOf(t, t.byRequest[key])), request.requestId)
    ensures LookupValidFor(NotAccepted(request.requestId), request.requestId)
  {
    hide Consistent;
    var key := RequestKey(request.caller, request.requestId);
    if key in t.byRequest {
      PeerAdmission.IndexedRequest(t, key);
      LookupIsValid(t, t.byRequest[key]);
    }
  }

  /** What the lookup after three unanswered attempts concludes. If the host answers and has this
      very request, its execution is found however many replies were lost. */
  method Resolve(store: PeerStore, request: Request, trip: Trip, lastError: ClientError) returns (result: Result<Reply, ClientError>)
    requires Consistent(store.tables)
    modifies store
    ensures Consistent(store.tables) && Evolves(old(store.tables), store.tables)
    ensures result.Ok? ==>
              ReplyIsTrue(store.tables, request, result.value) && !result.value.RejectedReply? && ReplyValidFor(result.value, request)
    ensures Answered(trip) && (exists e, at :: Names(old(store.tables), request, e, at)) ==> result.Ok?
  {
    hide Consistent, Evolves;
    var reply, answeredAt := Lookup(store, request, trip);
    FoundAgain(old(store.tables), answeredAt, store.tables, request);
    if reply.Err? { return Err(lastError); }
    match reply.value {
      case NotAccepted(_) => return Err(lastError);
      case KnownReply(_, execution, digest, acceptedAt, _, _, history) =>
        if digest != request.digest { return Err(Protocol); }
        match history {
          case HotHistory => return Ok(AcceptedReply(request.requestId, execution, digest, acceptedAt, acceptedAt, true));
          case ArchivedHistory(summary) => return Ok(ArchivedReply(request.requestId, execution, digest, acceptedAt, summary));
        }
    }
  }

  ghost predicate Finds(t: Tables, request: Request, e: ExecutionId) {
    && RequestKey(request.caller, request.requestId) in t.byRequest
    && t.byRequest[RequestKey(request.caller, request.requestId)] == e
    && e in Known(t) && LookupAnswer(SnapshotOf(t, e)).execution == e
  }

  /** Whatever the index has for this request is found. */
  ghost predicate FindsOwn(u: Tables, request: Request) {
    RequestKey(request.caller, request.requestId) in u.byRequest ==>
      Finds(u, request, u.byRequest[RequestKey(request.caller, request.requestId)])
  }

  /** What is found with the submitted digest is named in a later state. */
  ghost predicate FoundIsNamed(u: Tables, v: Tables, request: Request) {
    forall e :: Finds(u, request, e) && LookupAnswer(SnapshotOf(u, e)).digest == request.digest ==>
      Names(v, request, e, LookupAnswer(SnapshotOf(u, e)).acceptedAt)
  }

  /** What was named before is found with the submitted digest. */
  ghost predicate NamedIsFound(t: Tables, u: Tables, request: Request) {
    forall e, at :: Names(t, request, e, at) ==> Finds(u, request, e) && LookupAnswer(SnapshotOf(u, e)).digest == request.digest
  }

  lemma FoundAgain(t: Tables, u: Tables, v: Tables, request: Request)
    requires Consistent(u) && Consistent(v) && Evolves(t, u) && Evolves(u, v)
    ensures FindsOwn(u, request) && FoundIsNamed(u, v, request) && NamedIsFound(t, u, request)
  {
    hide Consistent, Evolves;
    var key := RequestKey(request.caller, request.requestId);
    if key in u.byRequest {
      PeerAdmission.IndexedRequest(u, key);
      SnapshotTells(u, u.byRequest[key]);
    }
    forall e | Finds(u, request, e) && LookupAnswer(SnapshotOf(u, e)).digest == request.digest
      ensures Names(v, request, e, LookupAnswer(SnapshotOf(u, e)).acceptedAt)
    {
      NamesStays(u, v, request, e, SnapshotOf(u, e).AcceptedAt());
    }
    forall e, at | Names(t, request, e, at)
      ensures Finds(u, request, e) && LookupAnswer(SnapshotOf(u, e)).digest == request.digest
    {
      NamesStays(t, u, request, e, at);
      SnapshotTells(u, e);
    }
  }

  /** Submits a request. When it returns an acceptance, hot or archived, that names the one execution
      of this caller and request identity, accepted with exactly the submitted digest. However many
      replies were lost, it does return one if the store had this request when it was asked at last
      and answers; `asked` is the store then, reached when no attempt brings a reply. */
  method SubmitWithRenewal(store: PeerStore, request: Request, first: Result<(), ClientError>, handshake: Result<(), ClientError>,
                           trips: seq<Trip>, last: Trip)
    returns (result: Result<Reply, ClientError>, ghost asked: Option<Tables>)
    requires |trips| == 3 && Consistent(store.tables)
    modifies store
    ensures Consistent(store.tables) && Evolves(old(store.tables), store.tables)
    ensures result.Ok? ==> ReplyIsTrue(store.tables, request, result.value) && ReplyValidFor(result.value, request)
    ensures result.Ok? && !result.value.RejectedReply? ==>
              result.value.digest == request.digest
              && Names(store.tables, request, result.value.execution, result.value.acceptedAt)
    ensures asked.Some? ==> Consistent(asked.value) && Evolves(old(store.tables), asked.value) && Evolves(asked.value, store.tables)
    ensures asked.Some? && Answered(last) && (exists e, at :: Names(asked.value, request, e, at)) ==>
              result.Ok? && !result.value.RejectedReply?
    ensures AllSilent(first, handshake, trips, last) ==> asked.Some?
    ensures AllSilent(first, handshake, trips, last) && Answered(last)
            && (exists e, at :: Names(old(store.tables), request, e, at)) ==>
              result.Ok? && !result.value.RejectedReply?
  {
    hide Consistent, Evolves, Names, ReplyValidFor;
    asked := None;
    Unchanged(store.tables);
    if first.Err? { return Err(first.error), None; }
    if handshake.Err? { return Err(handshake.error), None; }
    var lastError := Transport;
    for attempt := 0 to 3
      invariant Consistent(store.tables) && Evolves(old(store.tables), store.tables)
    {
      if trips[attempt].renewed.Err? { return Err(trips[attempt].renewed.error), None; }
      ghost var t := store.tables;
      var reply := Post(store, request, trips[attempt]);
      EvolvesThrough(old(store.tables), t, store.tables);
      if reply.Ok? {
        if !ReplyValidFor(reply.value, request) { return Err(Protocol), None; }
        return reply, None;
      }
      if !reply.error.Retryable() { return reply, None; }
      lastError := reply.error;
    }
    if last.renewed.Err? { return Err(last.renewed.error), None; }
    ghost var t := store.tables;
    asked := Some(t);
    NamedStill(old(store.tables), t, request);
    result := Resolve(store, request, last, lastError);
    EvolvesThrough(old(store.tables), t, store.tables);
  }

  /** Every renewal succeeds and every reply is lost in a way that says nothing about acceptance. */
  predicate AllSilent(first: Result<(), ClientError>, handshake: Result<(), ClientError>, trips: seq<Trip>, last: Trip) {
    && first.Ok? && handshake.Ok? && last.renewed.Ok?
    && forall i :: 0 <= i < |trips| ==>
         trips[i].renewed.Ok? && (!trips[i].delivered || !trips[i].returned) && trips[i].lostAs.Retryable()
  }

  lemma NamedStill(t: Tables, u: Tables, request: Request)
    requires Consistent(u) && Evolves(t, u)
    ensures (exists e, at :: Names(t, request, e, at)) ==> exists e, at :: Names(u, request, e, at)
  {
    hide Consistent, Evolves, Names;
    if e, at :| Names(t, request, e, at) {
      NamesStays(t, u, request, e, at);
    }
  }

  /** Two acceptances of one request, whoever received them and whenever, name one execution. */
  lemma AcceptancesAgree(t: Tables, u: Tables, a: Request, b: Request, d: ExecutionId, e: ExecutionId, atD: u64, atE: u64)
    requires Consistent(t) && Consistent(u) && Evolves(t, u)
    requires a.caller == b.caller && a.requestId == b.requestId
    requires Names(t, a, d, atD) && Names(u, b, e, atE)
    ensures d == e && a.digest == b.digest && atD == atE
  {
    hide Consistent, Evolves;
    NamesStays(t, u, a, d, atD);
  }
}
