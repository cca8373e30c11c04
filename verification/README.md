# Milkdrift durable protocols, verified

A Dafny model of Milkdrift's transactional stores and of the two kernels beside them, with proofs of what
they keep over whole runs.

- **Serving-peer executions** (`Peer*.dfy`): admission, dispatch, entry, observation logs, cancellation,
  archival, recovery and the integrity check of the store; the serving host's answers; the submitting peer's
  retries; and the observing peer's relay loop. A transaction works on its own copy of the tables and commits
  at the end. `Consistent` ties every index, row and counter to the primary records; `Evolves` is what no
  transaction undoes.
- **Task workflow commits** (`TaskTables.dfy`, `TaskStore.dfy`): compare-and-swap snapshots, exact receipts,
  accounting as sums over tables and capacity reserved for mandatory stops.
- **Managed installations** (`ManagedTypes.dfy`, `ManagedStore.dfy`): changes that survive failure and
  recovery, evaluations, and protected policies.
- **Daemon name** (`DaemonStore.dfy`): the writer and the validator of the rename history.
- **Stream decoding** (`Sse*.dfy`, `OpenAi*.dfy`): the event framer fed in pieces and against what a sender
  writes, and the delta accumulator against the whole-message parser.
- **Tariffs, keys and paths** (`Tariff.dfy`, `Codec.dfy`, `NativePaths.dfy`), with `Bytes.dfy`, `Utf8.dfy`,
  `Decimal.dfy` and `Sums.dfy` below them.

`dafny verify dfyconfig.toml` checks the whole project.

## What the proofs found

- The integrity check counts a cancellation that was claimed before adapter entry in no queue, while the
  queued counter includes it (adapters/redb-store/src/peer/integrity.rs:223-229). So it refuses a state that
  admission, cancellation and dispatch reach: `PeerRuns.ClaimedCancellationRun`. `PeerVerdict.VerdictOnConsistent`
  gives the exact condition.
- An observation page documents `closed` as "no later semantic observation can be appended"
  (crates/peer-protocol/src/execution.rs:931-932). The store still takes observations of a retained uncertain
  execution (adapters/redb-store/src/peer.rs:629-631): `PeerRuns.ConcludedAfterClosedPage`.
  `PeerRelay.ClosedMeansSealed` gives the exact condition, and `PeerRelay.ConcludeAfterPage` and
  `PeerRelay.RunAfterPage` its two halves as steps of the store.
- Archival reports corruption for an outcome that lies between the archival time and a boundary after it
  (adapters/redb-store/src/peer/validation.rs:240-266): `PeerRuns.LateArchivalRun`. The exact condition is
  `ArchiveRefusal`, by `PeerRetention.ArchiveEligible` for a batch and `PeerStore.PeerStore.Admit` for an
  admission. The serving host never passes such a boundary: `PeerServing.BoundaryIsPast`, `PeerServing.Invoke`.
- The framer's early length check counts a carriage return that the line check does not
  (adapters/model-provider/src/stream.rs:29-41), so a line one byte over the bound is accepted or refused by
  where a read ends: `SseParser.CarriageReturnMatters`, with the exact condition in `SseParser.AllCutsAgree`,
  `SseParser.CutsDoNotMatter` and `SseParser.AcceptedStreams`.
- A streamed response without identity, model and usage carries no metadata document where the whole-message
  parser writes one of nulls (adapters/model-provider/src/openai_compatible.rs:186-193, 377-393):
  `OpenAiAccumulator.AnonymousStreamDiffers`. `OpenAiAccumulator.SplitStreamAgrees` gives the exact condition.
- The serving host reads its clock again after the deadline check and answers the deadline as the lease of
  unclaimed work (crates/capability-host/src/serving.rs:553-554, 622), so work accepted after its deadline is
  answered with a lease before its acceptance, which the submitting peer refuses
  (adapters/peer-http/src/client.rs:199-201): `PeerRuns.LateAcceptanceRun`. `PeerServing.AcceptanceIsValid`
  gives the exact condition.

## Modelling choices

- Storage, fault points and file synchronisation are gone: a transaction commits whole or changes nothing.
- Digests stand for collision-free functions: the observation digest is a free chain over its documents, and
  others are compared only.
- Checks of documents that no property looks into are booleans carried by the document (`wellFormed`,
  `canonical`, `withinBounds`). Clocks, authority decisions, managed-resource guards and the network are
  arguments, and every property holds for all their values.
- Machine widths are explicit. `EXHAUSTED`, `Overflow` and similar errors are the checked-arithmetic failures.
- Text is a sequence of bytes; the byte-level modules spell UTF-8 out, and `NoControls` finds control
  characters in its bytes.

## Model

| member | source | states |
|---|---|---|
| PeerTypes.ChainOfLog | adapters/redb-store/src/peer/records.rs:316-335 | linking the documents of a log, oldest first, gives back its digest |
| PeerTypes.LogOfChain | adapters/redb-store/src/peer/records.rs:316-335 | a digest determines the documents it was linked over |
| PeerTables.InExactlyOneIndex | crates/persistence/src/peer.rs:97-173 | a well-formed phase calls for exactly one of the available, claim and terminal indexes |
| PeerTables.MoveKeepsIndex | adapters/redb-store/src/peer/records.rs:215-263 | moving one record from its old key to its new one keeps an index exact |
| PeerTables.RecountKeepsCounters | adapters/redb-store/src/peer/accounting.rs:148-179 | counters adjusted by one record stay the sizes of the sets they count |
| PeerTables.AppendKeepsRows | adapters/redb-store/src/peer.rs:684-703 | an append takes a row nothing used before and keeps rows and histories equal |
| PeerTables.ReplaceKeepsConsistent | adapters/redb-store/src/peer.rs:583-903 | any rewrite of one record whose index keys and counters follow its phase keeps the whole invariant |
| PeerTables.EmptyConsistent | adapters/redb-store/src/peer.rs:88-120 | an empty store satisfies the invariant |
| PeerEvolution.EvolvesTransitive | adapters/redb-store/src/peer.rs:292-924 | what holds between neighbouring states of a run holds between any two |
| PeerEvolution.EvolutionKeepsIdentity | adapters/redb-store/src/peer.rs:300-327 | caller, request identity, digest, sequence and time of an acceptance never change and its history only grows, archival included |
| PeerEvolution.OneExecutionPerRequest | adapters/redb-store/src/peer.rs:300-327 | at most one execution ever exists per caller and request identity, between any two states of a run |
| PeerEvolution.EndedHistoryIsFinal | adapters/redb-store/src/peer.rs:597-644 | a history that ended in a terminal observation is the same in every later state |
| PeerEvolution.PeerCountsSumToGlobal | adapters/redb-store/src/peer/accounting.rs:117-179 | the per-caller active counts sum to the global one |
| PeerTransaction.ReadSnapshotFinds | adapters/redb-store/src/peer/records.rs:356-430 | the location row of consistent tables leads to exactly the hot record or the tombstone |
| PeerTransaction.HotExecutionFinds | adapters/redb-store/src/peer/records.rs:45-64 | no stored-record check of a hot record can fail on consistent tables |
| PeerTransaction.ReleaseSucceeds | adapters/redb-store/src/peer/accounting.rs:148-179 | an active record always owns the units a release gives back, so no underflow branch fires |
| PeerTransaction.TakeOutSucceeds | adapters/redb-store/src/peer.rs:736-770 | the index row a terminal observation removes is always there |
| PeerTransaction.CommitPhase | adapters/redb-store/src/peer/claims.rs:22-291 | a phase or cancellation change that follows the phase rules keeps the invariant and only moves the execution forward |
| PeerCommit.AppendIsSound | adapters/redb-store/src/peer.rs:645-735 | counts, bytes, outputs and digest of the record are the measures of its own log after every append, within the accepted quota; time and cost are those its terminal document reported |
| PeerCommit.MayAppendIsRoom | adapters/redb-store/src/peer.rs:611-724 | an append is permitted exactly when the history takes the document: next in sequence, within the accepted documents, outputs and bytes, after entry or concluding, with usage within the limits |
| PeerCommit.CommitAppend | adapters/redb-store/src/peer.rs:583-782 | an append keeps the invariant and extends one history by one document |
| PeerCommit.CommitAccept | adapters/redb-store/src/peer.rs:412-480 | an acceptance keeps the invariant and adds one queued execution |
| PeerCommit.CommitArchive | adapters/redb-store/src/peer/retention.rs:96-131 | an archival keeps the invariant and every fact of the acceptance and its history |
| PeerCommit.TombstoneKeeps | adapters/redb-store/src/peer/retention.rs:96-131 | a tombstone keeps who asked for what and when, the outcome, cancellation, digest, outputs and accounting of its record |
| PeerCommit.GateKeepsConsistent | adapters/redb-store/src/peer.rs:204-277 | gates, relationships and catalogs change nothing that was accepted |
| PeerScan.First | adapters/redb-store/src/peer/claims.rs:31-44 | the least key of an index, before which no row ranks |
| PeerScan.Take | adapters/redb-store/src/peer/retention.rs:41-52 | the first keys of an index in key order, which are the rows of lowest rank |
| PeerRetention.OutputsAreOrdered | adapters/redb-store/src/peer/retention.rs:173-185 | the outputs of a log are its output documents, in increasing sequence |
| PeerRetention.TombstoneValidity | adapters/redb-store/src/peer/validation.rs:163-280 | a tombstone passes its checks exactly when the outcome is not later than the archival |
| PeerRetention.CollectOutputs | adapters/redb-store/src/peer/retention.rs:173-185 | reading row by row collects exactly the outputs of the history |
| PeerRetention.CompactRows | adapters/redb-store/src/peer/retention.rs:229-251 | compaction removes exactly the rows of one execution |
| PeerRetention.ArchiveOne | adapters/redb-store/src/peer/retention.rs:65-131 | one settled execution moves behind a tombstone that keeps all its facts, refused exactly when its outcome is later than the archival or the counter is full |
| PeerRetention.RowsOfSettled | adapters/redb-store/src/peer/retention.rs:41-64 | the terminal rows up to a time are one to one the executions settled by it |
| PeerRetention.ArchiveEligible | adapters/redb-store/src/peer/retention.rs:29-143 | a batch archives exactly the oldest settled executions within boundary, archival time and limit, and reports whether any is left; it is refused exactly as `ArchiveRefusal` says: as corruption if and only if the batch has room left, an outcome lies between archival time and boundary, and the counter does not run out first |
| PeerRecovery.Requeue | adapters/redb-store/src/peer/claims.rs:327-350 | a claim that never entered is queued again, unless and only unless its revision is full |
| PeerRecovery.Retain | adapters/redb-store/src/peer/claims.rs:351-359 | a claim that entered becomes uncertain and is never queued again, unless and only unless a counter it raises is full |
| PeerRecovery.RecoverClaims | adapters/redb-store/src/peer/claims.rs:293-373 | a pass recovers the claims that expire first, each once, and counts both kinds; it fails exactly when a counter cannot hold the whole pass; logs, archived executions, identities and gates stay as they were |
| PeerRecovery.BatchRecoversFirst | adapters/redb-store/src/peer/claims.rs:293-373 | no claim is left that expires before a recovered one, and each recovered record waits again or is uncertain as it had entered or not |
| PeerAdmission.MakeRoom | adapters/redb-store/src/peer.rs:382-395 | archival runs only when the reserved hot capacity is used up, with the exact capacity left and the exact reason of a failure |
| PeerAdmission.RefusalExactly | adapters/redb-store/src/peer.rs:328-381 | new work passes the gates exactly when admission, relationship and catalog are open and places are left, counted over the records |
| PeerAdmission.ReservedIsHot | adapters/redb-store/src/peer.rs:382-395 | reserved hot capacity is one place for every hot record |
| PeerAdmission.WriteAcceptance | adapters/redb-store/src/peer.rs:406-480 | the acceptance writes, refused exactly for a known execution identity, a full counter or busy resources, in that order |
| PeerAdmission.AdmitNew | adapters/redb-store/src/peer.rs:366-480 | no per-caller, global, queue or retention capacity is exceeded by an acceptance, and every outcome is the one `NewWork` predicts from the tables |
| PeerAdmission.PastBoundaryIsSafe | adapters/redb-store/src/peer/validation.rs:240-266 | an admission whose archival boundary is not after its own time never meets the corruption error |
| PeerAdmission.IndexedRequest | adapters/redb-store/src/peer.rs:311-320 | the request index never disagrees with the execution it names |
| PeerStore.PeerStore.constructor | adapters/redb-store/src/peer.rs:88-120 | a new store is empty and consistent |
| PeerStore.PeerStore.SetAdmissionOpen | adapters/redb-store/src/peer.rs:204-210 | only the admission gate changes |
| PeerStore.PeerStore.ConfigureRelationship | adapters/redb-store/src/peer.rs:212-245 | accepted exactly when new, repeated or of a newer generation |
| PeerStore.PeerStore.PublishCatalog | adapters/redb-store/src/peer.rs:247-277 | accepted exactly for an enabled caller at its generation, when new, repeated or newer |
| PeerStore.PeerStore.Admit | adapters/redb-store/src/peer.rs:292-481 | a known request is replayed or refused from the store whatever gates and capacity are; every refusal leaves the store unchanged, archival included; an accepted record is queued with what was asked, next in order, through open gates and within capacity; past the gates the outcome, error or not, is exactly what `NewWork` predicts |
| PeerStore.PeerStore.ExecutionByRequest | adapters/redb-store/src/peer.rs:483-506 | the lookup finds exactly the execution of the request |
| PeerStore.PeerStore.Observations | adapters/redb-store/src/peer.rs:535-581 | a page is the stretch of the history after the cursor; only a foreign execution or a cursor beyond the head is refused |
| PeerStore.PeerStore.AppendObservation | adapters/redb-store/src/peer.rs:583-782 | an identical document replays and another in its place conflicts; a document is appended exactly when the history takes it, its resources are ready and no counter is full; every field of the record follows; anything else changes nothing |
| PeerStore.PeerStore.WriteFinal | adapters/redb-store/src/peer.rs:736-782 | a terminal append settles the record, its index row and its accounting in one step, refused exactly for a full counter |
| PeerStore.PeerStore.WriteProgress | adapters/redb-store/src/peer.rs:684-735 | any other append leaves indexes and counters alone, refused exactly for a full revision |
| PeerStore.StandsByPhase | adapters/redb-store/src/peer/records.rs:215-263 | a hot execution stands queued under its acceptance sequence, claimed under the end of its lease or settled under its time, and nowhere else |
| PeerStore.PeerStore.RequestCancellation | adapters/redb-store/src/peer.rs:784-855 | the first request of an execution is the only one; work that never entered loses its claim and is queued under its acceptance sequence, entered work keeps its claim and evidence, settled work its phase |
| PeerStore.PeerStore.AcknowledgeCancellation | adapters/redb-store/src/peer.rs:857-903 | an acknowledgement is recorded once, for the recorded request |
| PeerStore.PeerStore.ClaimDispatch | adapters/redb-store/src/peer/claims.rs:22-110 | the queued execution that was accepted first is claimed, refused exactly when its revision is full |
| PeerStore.PeerStore.MarkEntered | adapters/redb-store/src/peer/claims.rs:112-163 | entry happens exactly for the held, unexpired, admitted claim, and is recorded once |
| PeerStore.PeerStore.ReleaseClaim | adapters/redb-store/src/peer/claims.rs:165-212 | exactly a held claim before entry can be released |
| PeerStore.PeerStore.ExtendClaim | adapters/redb-store/src/peer/claims.rs:214-252 | exactly a held claim moves its lease forward and keeps worker, generation, claim time and entry evidence |
| PeerStore.PeerStore.MarkUncertain | adapters/redb-store/src/peer/claims.rs:254-291 | exactly a held claim that entered, with a reason and no full counter, is retained as uncertain and gives back its active unit |
| PeerStore.PeerStore.Archive | adapters/redb-store/src/peer.rs:905-924 | an archival batch, or nothing for exactly the reason `ArchiveRefusal` gives |
| PeerStore.PeerStore.Recover | adapters/redb-store/src/peer/claims.rs:293-373 | a recovery pass, or nothing exactly when a counter cannot hold it |
| PeerStore.PeerStore.Apply | adapters/redb-store/src/peer.rs:88-924 | one transaction of any kind keeps the invariant and undoes nothing |
| PeerStore.PeerStore.Run | adapters/redb-store/src/peer.rs:88-924 | after any run every index, row and counter agrees with the records, acceptances are permanent, histories only grew and nothing settled became active again |
| PeerRuns.HotRowIsUnique | adapters/redb-store/src/peer.rs:412-476 | a hot execution stands in one index under one key, as its phase says |
| PeerRuns.ClaimedCancellationRun | adapters/redb-store/src/peer/integrity.rs:199-250 | a run of six calls reaches a consistent state that the integrity check refuses |
| PeerRuns.LateArchivalRun | adapters/redb-store/src/peer/validation.rs:240-266 | a run after which archival calls consistent tables contradictory |
| PeerRuns.ConcludedAfterClosedPage | adapters/redb-store/src/peer.rs:629-631 | a run that reads a closed page of an empty log and then has an observation appended |
| PeerRuns.LateAcceptanceRun | crates/capability-host/src/serving.rs:552-622 | a run whose acceptance is true and yet refused by the calling peer |
| PeerIntegrity.CheckLog | adapters/redb-store/src/peer/integrity.rs:139-192 | a log passes exactly when its rows, artifacts, outputs and digest are those of its history |
| PeerIntegrity.CheckHot | adapters/redb-store/src/peer/integrity.rs:106-252 | a hot record passes exactly when its ownership, request, log and index rows agree |
| PeerIntegrity.TallyHot | adapters/redb-store/src/peer/integrity.rs:98-252 | the hot loop counts what it says it counts |
| PeerIntegrity.SumCallers | adapters/redb-store/src/peer/integrity.rs:307-311 | the per-caller tallies sum to the number of active records |
| PeerIntegrity.CheckCallers | adapters/redb-store/src/peer/integrity.rs:376-405 | per-caller counters pass exactly when they equal the tallies, with none missing |
| PeerIntegrity.Verify | adapters/redb-store/src/peer/integrity.rs:30-338 | the check accepts exactly the tables that `Verified` describes, with readable counters |
| PeerVerdict.OwnersFillRows | adapters/redb-store/src/peer/integrity.rs:312-333 | rows with one key per owner hold nothing else exactly when the sizes agree |
| PeerVerdict.VerifiedAgrees | adapters/redb-store/src/peer/integrity.rs:98-337 | acceptance leaves no stray row in any table and every counter but the queued one exact |
| PeerVerdict.VerdictOnConsistent | adapters/redb-store/src/peer/integrity.rs:199-333 | of the states runs reach, the check refuses exactly those with a cancellation claimed before entry |
| PeerServing.SummaryIsValid | crates/peer-protocol/src/execution.rs:776-824 | the archived summary of a consistent store passes the checks of the calling peer |
| PeerServing.StatusTells | crates/capability-host/src/serving/store.rs:96-120 | the public status is terminal exactly for an ended history, running exactly for active entered work and accepted exactly for active work before entry |
| PeerServing.SummaryTellsHistory | crates/capability-host/src/serving/store.rs:122-144 | an archived summary tells the length, all outputs and the end of the history |
| PeerServing.AcceptanceIsValid | crates/peer-protocol/src/execution.rs:600-630 | an acceptance passes the checks of the calling peer exactly when it is archived or its lease, or deadline while unclaimed, is not before it |
| PeerServing.LookupIsValid | crates/peer-protocol/src/execution.rs:697-732 | a lookup answer is bound to its request and names the accepted execution, digest, status and length of the history |
| PeerServing.PageIsValid | crates/capability-host/src/serving/store.rs:13-49 | every page of a consistent store passes the checks of the calling peer |
| PeerServing.PageTells | crates/capability-host/src/serving/store.rs:13-49 | a page moves the cursor past what it carries, is terminal exactly with the rest of an ended history and closed exactly with the rest of a settled one |
| PeerServing.BoundaryIsPast | crates/capability-host/src/serving.rs:634-648 | the host never archives past the acceptance it makes room for, nor anything kept for less than the retention time |
| PeerServing.Invoke | crates/capability-host/src/serving.rs:507-670 | a submission is answered truthfully, a known request is answered from the store whatever the gates are, new work that nothing refuses is accepted, and tables are never called contradictory |
| PeerClient.NamesStays | adapters/peer-http/src/client.rs:188-244 | what a reply names, it names in every later state |
| PeerClient.Post | adapters/peer-http/src/client.rs:196-209 | whatever is lost, a reply that arrives is true |
| PeerClient.Lookup | adapters/peer-http/src/client.rs:251-258 | a lookup answers for the moment the host answered |
| PeerClient.Resolve | adapters/peer-http/src/client.rs:210-243 | if the host has the request and answers, its execution is found however many replies were lost |
| PeerClient.SubmitWithRenewal | adapters/peer-http/src/client.rs:188-244 | at most three attempts and one lookup; a reply has passed the checks of the calling peer; an acceptance, hot or archived, names the one execution of the request with the submitted digest; however many replies were lost, an answered lookup of a request the store has returns it |
| PeerClient.AcceptancesAgree | adapters/peer-http/src/client.rs:188-244 | two acceptances of one request, whenever received, name one execution, digest and time |
| PeerRelay.LastSlotIsKept | adapters/redb-store/src/peer.rs:619-644 | while a log is not finished, a terminal observation always fits its quota |
| PeerRelay.ClosedMeansSealed | crates/capability-host/src/serving/store.rs:24-37 | a closed page means no later observation exactly when the execution is not hot and uncertain with a revision left; in that case, and only then, the store takes another document |
| PeerRelay.UncertainMayConclude | adapters/redb-store/src/peer.rs:629-631 | a retained uncertain execution with a revision left can still be given a terminal observation |
| PeerRelay.ConcludeAfterPage | adapters/redb-store/src/peer.rs:583-782 | after a closed page the store appends a conclusion exactly when the page broke its promise |
| PeerRelay.RunAfterPage | crates/capability-host/src/serving/store.rs:24-37 | after a closed page that kept its promise no run of the store changes the history |
| PeerRelay.RelayPage | adapters/peer-http/src/remote.rs:997-1024 | one page is relayed in order, up to a failure or an event of another invocation |
| PeerRelay.PageDecides | crates/capability-host/src/serving/store.rs:13-49 | a page is archived, terminal or closed exactly as the history and the execution are |
| PeerRelay.RelayTurn | adapters/peer-http/src/remote.rs:951-1070 | one turn keeps what was relayed a prefix of the host history and ends exactly as its circumstances or, where nothing is in the way, the host decide; the contiguity error means the host logged an event of another invocation |
| PeerRelay.Relay | adapters/peer-http/src/remote.rs:950-1071 | relayed events are exactly the start of the host log and all of this invocation, a synthesized outcome takes the next number, and the loop ends well only on a complete, ended history |
| Decimal.ValueOfNumeral | adapters/redb-store/src/task.rs:409-413 | a numeral determines its number |
| Decimal.NumeralPrefix | adapters/redb-store/src/task.rs:409-413 | a length prefix and its separator can be read back |
| TaskTables.ReceiptKeyInjective | adapters/redb-store/src/task.rs:409-413 | one receipt key per actor and command key |
| TaskTables.ReceiptIsOwn | adapters/redb-store/src/task.rs:143-160 | the receipt found under a key is of that very actor and command key |
| TaskTables.ReceiptBytesExactly | adapters/redb-store/src/json.rs:17-56 | the counted bytes of a receipt are the length of its stored text |
| TaskTables.StopReceiptFits | adapters/redb-store/src/task.rs:213-221 | the 1024 bytes set aside always cover the envelope of a stop receipt |
| TaskTables.StopConsumedOnce | adapters/redb-store/src/task.rs:196-229 | one stop identity belongs to one receipt |
| TaskStore.AccountingFollows | adapters/redb-store/src/task.rs:256-286 | the accounting never underflows and stays the sums over the tables |
| TaskStore.AccountingFits | adapters/redb-store/src/task.rs:256-304 | the incremental accounting fits its limits exactly when the sums over the new tables do |
| TaskStore.StopKeepsReserve | adapters/redb-store/src/task.rs:287-304 | a stop gives up a reservation that covers its receipt, so the limits hold without further room |
| TaskStore.StopOverflowsHistoryOnly | adapters/redb-store/src/task.rs:250-291 | a stop receipt cannot overflow the receipt totals |
| TaskStore.LoggedOnce | adapters/redb-store/src/task.rs:343-352 | a workflow generation is its number of applied commits |
| TaskStore.WrittenNumbers | adapters/redb-store/src/task.rs:230-248 | every receipt names a stored workflow at a generation it has had, and no two receipts of a workflow share one |
| TaskStore.WrittenEvolves | adapters/redb-store/src/task.rs:161-195 | receipts are permanent, owners constant and entry evidence only grows |
| TaskStore.TaskStore.constructor | adapters/redb-store/src/task.rs:482-492 | an empty store satisfies the invariant |
| TaskStore.TaskStore.CommitWorkflow | adapters/redb-store/src/task.rs:133-327 | exactly once per actor and key; a transition is applied exactly when it is fresh, well formed, follows the stored snapshot and the new sums fit; its receipt carries the command, the workflow and the generation the table then holds; a replayed receipt is of the same actor and key; a refusal or replay changes nothing; no corruption branch fires; a ready mandatory stop is always applied |
| TaskStore.TaskStore.Run | adapters/redb-store/src/task.rs:133-327 | all of it after any sequence of commits, replays and refusals |
| ManagedStore.CheckedMayFollow | adapters/redb-store/src/managed.rs:506-562 | the protected check accepts exactly the changes that may follow the verified setup |
| ManagedTypes.PassesExactly | crates/authority/src/protected_effect.rs:99-128 | evidence passes exactly when it is complete, about this policy, verifier and producer, within size, valid at the time for the lifetime of the policy, with the required checks in order, each passed |
| ManagedStore.PublicationIsCertified | adapters/redb-store/src/managed.rs:533-556 | a publication on a protected setup carries the stored evaluation it names, certified, valid when authorized and about this very installation, generation and recipe |
| ManagedStore.ManagedStore.constructor | adapters/redb-store/src/managed.rs:149-160 | an empty store satisfies the invariant |
| ManagedStore.ManagedStore.BeginChange | adapters/redb-store/src/managed.rs:249-385 | a change is accepted once per actor, command and scope, exactly when it is allowed and the installation takes it at the expected version; a publication needs certified evidence; a recovery resumes a change unchanged |
| ManagedStore.ManagedStore.Prepare | adapters/redb-store/src/managed.rs:283-362 | the record a change leaves, refused exactly when the installation does not take it |
| ManagedStore.ManagedStore.AdvanceChange | adapters/redb-store/src/managed.rs:386-435 | accepted exactly for the awaited step; the candidate becomes current only after one observation per step, in order |
| ManagedStore.ManagedStore.FailChange | adapters/redb-store/src/managed.rs:436-460 | accepted exactly for the step the change is at; an uncertain change keeps its evidence and its place |
| ManagedStore.ManagedStore.Acquire | adapters/redb-store/src/managed/execution.rs:13-43 | exactly an open installation at its current generation with room takes a hold |
| ManagedStore.ManagedStore.ReleaseUse | adapters/redb-store/src/managed/uses.rs:295-322 | a hold is given back, refused exactly for a full version; an unknown one changes nothing |
| ManagedStore.ManagedStore.BeginEvaluation | adapters/redb-store/src/managed/evaluation.rs:15-125 | an evaluation is accepted exactly when it is about the protected target as it is now, incomplete, new and within capacity |
| ManagedStore.ManagedStore.FinishEvaluation | adapters/redb-store/src/managed/evaluation.rs:126-176 | exactly the accepted evaluation can be completed, once; a complete evaluation never changes |
| ManagedStore.AdvancedIsSound | adapters/redb-store/src/managed.rs:407-428 | a step keeps admission, evidence count and protected rules in line |
| ManagedStore.OnlyPublicationReplaces | adapters/redb-store/src/managed.rs:533-556 | a protected candidate is replaced only by a publication whose stored evidence passed the policy at the generation it replaces |
| ManagedStore.StepIsEarned | adapters/redb-store/src/managed.rs:533-556 | a replaced protected candidate carries stored, complete evidence of this installation with every required check passed |
| ManagedStore.ManagedStore.Apply | adapters/redb-store/src/managed.rs:149-502 | one transaction of any kind keeps the invariant and undoes nothing |
| ManagedStore.ManagedStore.Run | adapters/redb-store/src/managed.rs:149-502 | after any interleaving owners never change, unprotected stays unprotected, a protected setup keeps agreement, policy and recipe, and a protected candidate that changed carries a stored evaluation certified under the policy |
| DaemonStore.NoneLeftOut | adapters/redb-store/src/daemon.rs:300-317 | distinct numbers from 2 to the generation leave none out exactly when they are as many |
| DaemonStore.MetadataBytesExactly | adapters/redb-store/src/daemon.rs:243-256 | the counted bytes of a record are the length of its JSON text |
| DaemonStore.Validate | adapters/redb-store/src/daemon.rs:276-320 | the validator accepts exactly the histories with one receipt per generation, the newest equal to the current record |
| DaemonStore.DaemonStore.constructor | adapters/redb-store/src/daemon.rs:22-35 | an empty store has a valid history |
| DaemonStore.DaemonStore.Initialize | adapters/redb-store/src/daemon.rs:23-57 | an installation is bound and named once |
| DaemonStore.DaemonStore.RenameDaemon | adapters/redb-store/src/daemon.rs:95-167 | a rename applies once per actor and key, exactly on the expected generation with room for its receipt, and leaves the requested name one generation on; exact replay works at full capacity; no corruption branch fires |
| DaemonStore.DaemonStore.Run | adapters/redb-store/src/daemon.rs:23-320 | every reachable history passes the validator |
| Bytes.OrderedByNumber | adapters/redb-store/src/peer/records.rs:293-297 | index keys are ordered by their number first |
| Codec.HeadOfComponent | adapters/redb-store/src/codec.rs:80-85 | a component in front of anything is read back exactly |
| Codec.EncodedInjective | adapters/redb-store/src/codec.rs:28-34 | different component lists have different keys, whatever their lengths |
| Codec.PrefixSelects | adapters/redb-store/src/codec.rs:5-13 | only keys whose first component is `a` start with the encoding of `a` |
| Codec.Components | adapters/redb-store/src/codec.rs:28-34 | encoding succeeds exactly when every component fits its length prefix |
| Codec.DecodeComponents | adapters/redb-store/src/codec.rs:47-78 | decoding succeeds on exactly the keys the encoder writes for that many texts, and returns them |
| Codec.NextCovers | adapters/redb-store/src/codec.rs:36-45 | the next string of one length bounds exactly the keys with the prefix |
| Codec.PrefixEnd | adapters/redb-store/src/codec.rs:36-45 | there is no end exactly for an empty or all-0xFF prefix; otherwise the in-place result bounds the range |
| NativePaths.PathClaims.ClaimPaths | adapters/redb-store/src/native_paths.rs:8-54 | a claim is accepted exactly when valid, repeated or free of overlap, within 4096 claims |
| NativePaths.PathClaims.ReleasePaths | adapters/redb-store/src/native_paths.rs:70-80 | a release removes one owner and keeps the rest apart |
| NativePaths.PathClaims.Run | adapters/redb-store/src/native_paths.rs:8-80 | after any sequence of claims and releases the claims are apart and at most 4096, and nothing is lost without a release |
| NativePaths.ExcludesExactly | adapters/redb-store/src/native_paths.rs:36-42 | two roots exclude each other exactly when one writes and they are one file or a path lies below both |
| NativePaths.WriterIsAlone | adapters/redb-store/src/native_paths.rs:30-48 | whoever holds a writable root above a path is the only owner above it |
| NativePaths.SharedIdentityReads | adapters/redb-store/src/native_paths.rs:36-42 | distinct owners share a root identity only to read |
| SseParser.TakeLine | adapters/model-provider/src/stream.rs:35-68 | one line does what its specification says; collected data is always valid text, so the second encoding check never fails |
| SseParser.SseParser.Push | adapters/model-provider/src/stream.rs:23-71 | a read is the early length check followed by draining the buffer line by line |
| SseParser.SseParser.Finish | adapters/model-provider/src/stream.rs:73-79 | a stream ends well exactly when nothing is pending |
| SseParser.ReadBody | adapters/model-provider/src/http.rs:152-200 | reads in turn until cancellation, a failed or oversized read or the framer stops it; uninterrupted reads within the size limit give the run over those reads |
| SseParser.FeedSplits | adapters/model-provider/src/stream.rs:23-71 | feeding in two pieces is feeding at once |
| SseParser.CleanRunsAgree | adapters/model-provider/src/stream.rs:23-79 | a cut run that ends cleanly emits what one push of the whole stream emits |
| SseParser.CutsDoNotMatter | adapters/model-provider/src/stream.rs:29-41 | unless one push finds a line too long, the reads do not matter exactly when no line reached exceeds the bound, carriage return counted |
| SseParser.AllCutsAgree | adapters/model-provider/src/stream.rs:29-41 | for every stream, the reads do not matter exactly when stopping at any line that grows too long is what one push does |
| SseParser.TooLongForAllCuts | adapters/model-provider/src/stream.rs:29-41 | when one push finds a line too long, every run ends that way with the events of a beginning |
| SseParser.ShortLinesDoNotMatter | adapters/model-provider/src/stream.rs:23-79 | if every line fits, carriage return counted, all cuts give the same events and verdict |
| SseParser.AcceptedStreams | adapters/model-provider/src/stream.rs:29-41 | for accepted streams the reads do not matter exactly when every line fits |
| SseParser.CarriageReturnMatters | adapters/model-provider/src/stream.rs:29-41 | a stream whose verdict depends on where a read ends |
| SseRoundTrip.WhatIsSentArrives | adapters/model-provider/src/stream.rs:23-79 | events written as data lines, with or without a space, with either line ending and among other known fields, arrive as they were and the stream ends well |
| SseRoundTrip.WhatIsSentArrivesInPieces | adapters/model-provider/src/stream.rs:23-79 | so they do however the stream is cut into reads |
| SseRoundTrip.BadLineStops | adapters/model-provider/src/stream.rs:41-68 | a line stops the stream for the first that applies: too long, no text, more data than an event may have, or no known label |
| SseRoundTrip.RefusedEventStops | adapters/model-provider/src/stream.rs:45-53 | an event the consumer refuses is the last one |
| SseRoundTrip.UnfinishedIsTruncated | adapters/model-provider/src/stream.rs:73-79 | an event without its empty line leaves the stream truncated |
| Utf8.ValidConcat | adapters/model-provider/src/stream.rs:44-50 | text after text is text |
| Utf8.EncodedIsValid | adapters/model-provider/src/stream.rs:44-50 | encoded scalar values are text |
| Utf8.ValidIsEncoded | adapters/model-provider/src/stream.rs:44-50 | text is encoded scalar values |
| OpenAiMessage.ParseUsage | adapters/model-provider/src/openai_compatible.rs:459-549 | absent usage is unreported; reported cost has a currency, cached input is within input and a stated total is the sum |
| OpenAiMessage.UsageReadsBack | adapters/model-provider/src/openai_compatible.rs:459-549 | consistent usage is read back, each figure under its own name |
| OpenAiMessage.UsageRefused | adapters/model-provider/src/openai_compatible.rs:459-549 | usage is refused when a detail exceeds its total or audio was used |
| OpenAiMessage.FinishReadsBack | adapters/model-provider/src/openai_compatible.rs:550-558 | each finish reason is read from its own spelling and any other is unknown |
| OpenAiMessage.MessageReadsBack | adapters/model-provider/src/openai_compatible.rs:153-196 | a completion document says what its message says |
| OpenAiMessage.MessageRefused | adapters/model-provider/src/openai_compatible.rs:153-215 | a document without exactly one choice, or with foreign message fields, is refused |
| OpenAiMessage.ResponseTells | adapters/model-provider/src/openai_compatible.rs:153-196 | a message yields a response exactly when all of it is acceptable, with its own text, calls in order with parsed arguments, structure where asked, reason, usage and metadata |
| OpenAiAccumulator.StreamState.constructor | adapters/model-provider/src/openai_compatible.rs:234-252 | a new accumulator stands for the empty chain |
| OpenAiAccumulator.StreamState.Event | adapters/model-provider/src/openai_compatible.rs:253-345 | an event is accepted exactly when it ends the stream or agrees with the chain so far; every field is then what the chain adds up to |
| OpenAiAccumulator.StreamState.AddPieces | adapters/model-provider/src/openai_compatible.rs:306-342 | tool indexes are always exactly 0 to n-1, each tool the sum of its pieces |
| OpenAiAccumulator.StreamState.Keep | adapters/model-provider/src/openai_compatible.rs:406-420 | identity, model and usage are kept when stated once or the same again |
| OpenAiAccumulator.StreamState.FinishTools | adapters/model-provider/src/openai_compatible.rs:353-367 | calls are finished in index order |
| OpenAiAccumulator.StreamState.Complete | adapters/model-provider/src/openai_compatible.rs:346-403 | a response is made exactly of an ended, nonempty chain |
| OpenAiAccumulator.Collect | adapters/model-provider/src/openai_compatible.rs:253-403 | a whole stream yields what its events add up to, and the reported fragments concatenate to the text |
| OpenAiAccumulator.SplitStreamAgrees | adapters/model-provider/src/openai_compatible.rs:153-196 | a stream whose events split a message and end in the end marker collects to what the whole-message parser makes of it, or both fail; metadata agrees exactly when the message states an identity, a model or a usage |
| OpenAiAccumulator.CutStreamAgrees | adapters/model-provider/src/openai_compatible.rs:253-403 | so does a stream whose events are those of a message cut in any way, with the same condition on the metadata |
| OpenAiAccumulator.SentCutIsRead | adapters/model-provider/src/openai_compatible.rs:264-342 | every cutting can be sent: texts that parse to the documents of its events are read as them |
| OpenAiAccumulator.AnonymousStreamDiffers | adapters/model-provider/src/openai_compatible.rs:377-393 | a message without identity, model and usage: the stream yields no metadata document and the whole-message parser one of nulls |
| OpenAiStream.SplitIsAccepted | adapters/model-provider/src/openai_compatible.rs:253-345 | every event of a chain that splits a message is accepted |
| OpenAiStream.ReadsBack | adapters/model-provider/src/openai_compatible.rs:264-342 | reading the document of an event gives the event back |
| OpenAiStream.EventMalformed | adapters/model-provider/src/openai_compatible.rs:279-303 | an event with more than one choice, another index or foreign fields is malformed |
| OpenAiStream.SplitAddsUp | adapters/model-provider/src/openai_compatible.rs:306-342 | pieces that state each call, join to its arguments and open in order add up to exactly those calls |
| OpenAiStream.StreamAgreesWithWhole | adapters/model-provider/src/openai_compatible.rs:153-196 | a chain that splits a message yields the same text, structured output, calls, finish reason and usage as the whole message, or both fail; the metadata agrees exactly when the message states an identity, a model or a usage |
| OpenAiStream.EveryCuttingSplits | adapters/model-provider/src/openai_compatible.rs:253-345 | whatever way content and argument texts are cut and interleaved into events, the events split the message |
| OpenAiStream.OneEventSplits | adapters/model-provider/src/openai_compatible.rs:422-457 | every message can be cut, at the coarsest into one event |
| Tariff.ChargeIsExact | adapters/model-provider/src/accounting.rs:416-424 | a charge is computable exactly when its rounded amount fits 64 bits |
| Tariff.CeilDivIsLeast | adapters/model-provider/src/accounting.rs:141-159 | rounding up gives the least number of whole units |
| Tariff.SplitCostsNoMore | adapters/model-provider/src/accounting.rs:383-410 | any split into cached and uncached input costs at most the dearer rate |
| Tariff.PreparedBounds | adapters/model-provider/src/accounting.rs:255-276 | the bounds of a prepared request are its bytes with template overhead and its own output limit, computable exactly when text only and within the contract |
| Tariff.ReservedWithinMaximum | adapters/model-provider/src/accounting.rs:325-355 | if the largest call is computable, every prepared request is, reserves no more, and the authority allowance covers it |
| Tariff.ReservedExactly | adapters/model-provider/src/accounting.rs:325-355 | a reservation is the cost of the dearest split of the tokens of the request and no more, and the authority allowance the least that covers the largest call |
| Tariff.SettledWithinReserved | adapters/model-provider/src/accounting.rs:357-413 | settling within the reserved tokens never overflows and never charges more than was reserved |
| Tariff.SettledExactly | adapters/model-provider/src/accounting.rs:357-412 | a settled charge is the least whole number of micros that covers the reported tokens at their own rates, in the currency of the tariff, and every refusal is the stated one |
| Tariff.UnbilledExactly | adapters/model-provider/src/accounting.rs:357-369 | unbilled usage carries no charge and a stated one is refused |

## Left out

- redb, file-system synchronisation, fault injection and offline copies: a transaction is one atomic step.
- JSON text and BLAKE3: parsing is an argument, encodings appear by their length.
- HTTP routing, credentials, TLS and rate limits: an exchange succeeds, is refused or is lost.
- The authority evaluator and capability selection: one boolean per decision, as they would only add field comparisons.
- Artifact import, archived-output recovery and artifact transfer of the observing peer: the relay stops at the summary it would report.
- Serving-host binding of relationships and executions: one installation is assumed, as it would only add one comparison per table.
- Artifact reservations and retained-history capacity of task accounting: an argument of a commit.
- Resource kinds, fencing, quiescence and editing claims of managed uses: a use is an identity bound to a generation.
- Clock watermark, security-audit ring, list paging and the Anthropic stream mapping: they would only add easier members.
- Identities of the serving store are numbers in one total order; the length-first order of their encoded text is not spelled out.
- PeerIntegrity.Verify: counts are unbounded numbers, so the overflow checks of the counting loop are not modelled.
- ManagedStore.ManagedStore.Acquire: does not model per-resource conflicts between uses, because uses carry no resources here.
- ManagedStore.ManagedStore.ReleaseUse: does not model the quiescence evidence and child ownership a release needs.
- OpenAiAccumulator.StreamState.Event: says nothing about the fields after a refused event, because the stream ends there.
