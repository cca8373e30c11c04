/** Workflow commits: compare-and-swap snapshots with exact receipts and protected stop capacity. */
module TaskStore {
  import opened Prelude
  import opened Sums
  import opened TaskTables

  datatype Error =
    | BadIdentity
    | IdempotencyConflict
    | Malformed
    | ClockRefused
    | GenerationConflict(actual: Option<u64>)
    | OwnerChanged
    | EvidenceRemoved
    | StopRefused
    | DocumentTooLarge
    | ResourcesBusy
    | HistoryFull
    | ReceiptsFull
    | Overflow
    | Corruption

  /** `clockOk`, `resourcesReady` and `historyFits` are decided by the clock watermark, the managed
      resource guards and the retained-history allowance. */
  datatype Commit = Commit(
    expected: Option<u64>,
    snapshot: Snapshot,
    command: Option<Command>,
    clockOk: bool,
    resourcesReady: bool,
    historyFits: bool)

  datatype Outcome = Applied(receipt: Option<Receipt>) | Replay(original: Receipt)

  const MAX_WORKFLOW_BYTES: nat := 256 * 1024 * 1024 + 2 * 1024 * 1024

  predicate Unique(entered: seq<InvocationId>) {
    forall i, j :: 0 <= i < j < |entered| ==> entered[i] != entered[j]
  }

  function Expected(commit: Commit): nat { (if commit.expected.Some? then commit.expected.value else 0) + 1 }

  predicate WellFormed(commit: Commit) {
    && |commit.snapshot.entered| <= 4096 && Unique(commit.snapshot.entered)
    && Expected(commit) <= U64_MAX && commit.snapshot.generation == Expected(commit)
    && Identity(commit.snapshot.owner)
    && WorkflowIdentity(commit.snapshot.workflow)
    && commit.snapshot.withinBounds
    && (commit.command.Some? ==> commit.command.value.wellFormed)
  }

  /** The receipt a command leaves. */
  function ReceiptOf(commit: Commit): Option<Receipt> {
    if commit.command.Some?
    then Some(Receipt(commit.snapshot.workflow, commit.snapshot.generation, commit.command.value)) else None
  }

  function KeyOf(command: Command): string { ReceiptKey(command.actor, command.key) }

  function Previous(t: Tables, commit: Commit): Option<Snapshot> {
    if commit.snapshot.workflow in t.workflows then Some(t.workflows[commit.snapshot.workflow]) else None
  }

  /** The compare-and-swap and immutability checks against the stored snapshot. */
  predicate Succeeds(stored: Option<Snapshot>, commit: Commit) {
    && commit.expected == (if stored.Some? then Some(stored.value.generation) else None)
    && (stored.Some? ==> stored.value.owner == commit.snapshot.owner)
    && (stored.Some? ==> forall i :: 0 <= i < |stored.value.entered| ==> stored.value.entered[i] in commit.snapshot.entered)
  }

  /** A reserved action must be an unused stop identity that gives up a reservation. */
  predicate StopAllowed(t: Tables, commit: Commit, command: Command)
    requires command.reservedAction.Some?
  {
    var action := command.reservedAction.value;
    var stored := Previous(t, commit);
    && action == command.key && StopIdentity(action, commit.snapshot.workflow)
    && action !in t.actionOwners
    && stored.Some? && commit.snapshot.reservedReceipts < stored.value.reservedReceipts
    && command.encodedBytes <= ACTION_RECEIPT_BYTES - ACTION_ENVELOPE_BYTES
  }

  function Add(left: u64, right: nat): Result<u64, Error> {
    if left + right <= U64_MAX then Ok(left + right) else Err(Overflow)
  }

  function Replace(total: u64, stored: nat, next: nat): Result<u64, Error> {
    if total < stored then Err(Corruption) else Add(total - stored, next)
  }

  /** The accounting after one snapshot replaces another and a receipt may be added. */
  function Accounted(a: Accounting, stored: Option<Snapshot>, next: Snapshot, receipt: Option<Receipt>): Result<Accounting, Error> {
    var historyBytes :- Replace(a.historyBytes, if stored.Some? then stored.value.encodedBytes else 0, next.encodedBytes);
    var reservedBytes :- Replace(a.reservedBytes, if stored.Some? then stored.value.reservedBytes else 0, next.reservedBytes);
    var reservedReceipts :- Replace(a.reservedReceipts, if stored.Some? then stored.value.reservedReceipts else 0, next.reservedReceipts);
    var receiptBytes :- Add(a.receiptBytes, if receipt.Some? then ReceiptBytes(receipt.value) else 0);
    var receiptEntries :- Add(a.receiptEntries, if receipt.Some? then 1 else 0);
    Ok(Accounting(historyBytes, receiptBytes, receiptEntries, reservedBytes, reservedReceipts))
  }

  /** The tables a commit writes. */
  function Written(t: Tables, commit: Commit, accounting: Accounting): Tables {
    Tables(
      t.workflows[commit.snapshot.workflow := commit.snapshot],
      if commit.command.Some?
      then t.receipts[KeyOf(commit.command.value) := Receipt(commit.snapshot.workflow, commit.snapshot.generation, commit.command.value)]
      else t.receipts,
      if commit.command.Some? && commit.command.value.reservedAction.Some?
      then t.actionOwners[commit.command.value.reservedAction.value := commit.command.value.actor]
      else t.actionOwners,
      accounting)
  }

  // ---- The accounting stays a sum ----

  lemma WorkflowSums(t: Tables, u: Tables, next: Snapshot, stored: Option<Snapshot>)
    requires u.workflows == t.workflows[next.workflow := next]
    requires stored == if next.workflow in t.workflows then Some(t.workflows[next.workflow]) else None
    ensures stored.Some? ==>
              && stored.value.encodedBytes <= Sum(HistoryBytes(t))
              && stored.value.reservedBytes <= Sum(ReservedBytes(t))
              && stored.value.reservedReceipts <= Sum(ReservedReceipts(t))
    ensures Sum(HistoryBytes(u)) == Sum(HistoryBytes(t)) - (if stored.Some? then stored.value.encodedBytes else 0) + next.encodedBytes
    ensures Sum(ReservedBytes(u)) == Sum(ReservedBytes(t)) - (if stored.Some? then stored.value.reservedBytes else 0) + next.reservedBytes
    ensures Sum(ReservedReceipts(u))
            == Sum(ReservedReceipts(t)) - (if stored.Some? then stored.value.reservedReceipts else 0) + next.reservedReceipts
  {
    hide Sum;
    var w := next.workflow;
    SumAfterUpdate(HistoryBytes(t), w, next.encodedBytes);
    SumAfterUpdate(ReservedBytes(t), w, next.reservedBytes);
    SumAfterUpdate(ReservedReceipts(t), w, next.reservedReceipts);
    assert HistoryBytes(u) == HistoryBytes(t)[w := next.encodedBytes];
    assert ReservedBytes(u) == ReservedBytes(t)[w := next.reservedBytes];
    assert ReservedReceipts(u) == ReservedReceipts(t)[w := next.reservedReceipts];
  }

  lemma ReceiptSums(t: Tables, u: Tables, key: string, receipt: Receipt)
    requires key !in t.receipts && u.receipts == t.receipts[key := receipt]
    ensures Sum(ReceiptSizes(u)) == Sum(ReceiptSizes(t)) + ReceiptBytes(receipt)
    ensures |u.receipts| == |t.receipts| + 1
  {
    hide Sum, ReceiptBytes;
    SumAfterUpdate(ReceiptSizes(t), key, ReceiptBytes(receipt));
    SizeAfterAdd(t.receipts, key, receipt);
    assert ReceiptSizes(u) == ReceiptSizes(t)[key := ReceiptBytes(receipt)];
  }

  /** What was stored is always covered by the totals, so no underflow; and the new totals are the
      sums over the new tables. */
  lemma AccountingFollows(t: Tables, commit: Commit, u: Tables)
    requires AccountingAgrees(t)
    requires commit.command.Some? ==> KeyOf(commit.command.value) !in t.receipts
    requires u == Written(t, commit, u.accounting)
    ensures Accounted(t.accounting, Previous(t, commit), commit.snapshot, ReceiptOf(commit)).Err? ==>
              Accounted(t.accounting, Previous(t, commit), commit.snapshot, ReceiptOf(commit)).error == Overflow
    ensures Accounted(t.accounting, Previous(t, commit), commit.snapshot, ReceiptOf(commit)) == Ok(u.accounting) ==>
              AccountingAgrees(u)
  {
    hide Sum, ReceiptBytes, KeyOf, HistoryBytes, ReservedBytes, ReservedReceipts, ReceiptSizes;
    WorkflowSums(t, u, commit.snapshot, Previous(t, commit));
    if commit.command.Some? {
      ReceiptSums(t, u, KeyOf(commit.command.value), ReceiptOf(commit).value);
    } else {
      assert u.receipts == t.receipts;
      SameReceipts(t, u);
    }
  }

  lemma SameReceipts(t: Tables, u: Tables)
    requires u.receipts == t.receipts
    ensures ReceiptSizes(u) == ReceiptSizes(t)
  {
    hide ReceiptBytes;
  }

  lemma StoredReservation(t: Tables, w: string)
    requires w in t.workflows
    ensures t.workflows[w].reservedReceipts <= Sum(ReservedReceipts(t))
  {
    hide Sum;
    SumAfterUpdate(ReservedReceipts(t), w, 0);
  }

  /** A stop gives up at least one reservation, whose bytes cover its receipt: the reserve is kept
      without any further room. */
  lemma StopKeepsReserve(t: Tables, commit: Commit, limits: Limits)
    requires Consistent(t, limits) && WellFormed(commit)
    requires commit.command.Some? && commit.command.value.reservedAction.Some? && StopAllowed(t, commit, commit.command.value)
    ensures var a := Accounted(t.accounting, Previous(t, commit), commit.snapshot, ReceiptOf(commit));
            a.Ok? ==> ReserveKept(a.value, limits)
  {
    hide Sum, ReceiptBytes, HistoryBytes, ReservedBytes, ReservedReceipts, ReceiptSizes, StopsConsumedOnce, RowsOwned, StopIdentity;
    StopReceiptFits(ReceiptOf(commit).value);
    StoredReservation(t, commit.snapshot.workflow);
  }

  /** Nor can the receipt itself overflow the totals. */
  lemma StopOverflowsHistoryOnly(t: Tables, commit: Commit, limits: Limits)
    requires Consistent(t, limits) && WellFormed(commit)
    requires commit.command.Some? && commit.command.value.reservedAction.Some? && StopAllowed(t, commit, commit.command.value)
    requires Replace(t.accounting.historyBytes, Previous(t, commit).value.encodedBytes, commit.snapshot.encodedBytes).Ok?
    requires Replace(t.accounting.reservedBytes, Previous(t, commit).value.reservedBytes, commit.snapshot.reservedBytes).Ok?
    ensures Accounted(t.accounting, Previous(t, commit), commit.snapshot, ReceiptOf(commit)).Ok?
  {
    hide Sum, ReceiptBytes, HistoryBytes, ReservedBytes, ReservedReceipts, ReceiptSizes, StopsConsumedOnce, RowsOwned, StopIdentity;
    StopReceiptFits(ReceiptOf(commit).value);
    StoredReservation(t, commit.snapshot.workflow);
  }

  lemma WrittenKeepsRows(t: Tables, commit: Commit, a: Accounting)
    requires RowsOwned(t) && StopsConsumedOnce(t) && WellFormed(commit)
    requires commit.command.Some? ==> KeyOf(commit.command.value) !in t.receipts
    requires commit.command.Some? && commit.command.value.reservedAction.Some? ==> StopAllowed(t, commit, commit.command.value)
    ensures RowsOwned(Written(t, commit, a)) && StopsConsumedOnce(Written(t, commit, a))
  {
    assert RowsOwned(Written(t, commit, a)) by { WrittenOwnsRows(t, commit, a); }
    WrittenConsumesOnce(t, commit, a);
  }

  lemma WrittenOwnsRows(t: Tables, commit: Commit, a: Accounting)
    requires RowsOwned(t) && WellFormed(commit)
    ensures RowsOwned(Written(t, commit, a))
  {
    hide WorkflowIdentity, ReceiptKey, NoControls;
  }

  lemma WrittenConsumesOnce(t: Tables, commit: Commit, a: Accounting)
    requires RowsOwned(t) && StopsConsumedOnce(t) && WellFormed(commit)
    requires commit.command.Some? ==> KeyOf(commit.command.value) !in t.receipts
    requires commit.command.Some? && commit.command.value.reservedAction.Some? ==> StopAllowed(t, commit, commit.command.value)
    ensures StopsConsumedOnce(Written(t, commit, a))
  {
    hide WorkflowIdentity, Identity, Unique;
    var u := Written(t, commit, a);
    if commit.command.Some? {
      forall action | action in u.actionOwners
        ensures var k := ReceiptKey(u.actionOwners[action], action);
                k in u.receipts && u.receipts[k].command.reservedAction == Some(action)
      {
        if action in t.actionOwners {
          var k := ReceiptKey(t.actionOwners[action], action);
          assert k in t.receipts && k != KeyOf(commit.command.value);
        }
      }
    }
  }

  /** A commit gives its receipt the generation it moves the workflow to, which no receipt had before. */
  lemma WrittenNumbers(t: Tables, commit: Commit, a: Accounting)
    requires ReceiptsNumbered(t) && WellFormed(commit) && Succeeds(Previous(t, commit), commit)
    requires commit.command.Some? ==> KeyOf(commit.command.value) !in t.receipts
    requires commit.command.Some? && commit.command.value.reservedAction.Some? ==> StopAllowed(t, commit, commit.command.value)
    ensures ReceiptsNumbered(Written(t, commit, a))
  {
    hide KeyOf, Identity, WorkflowIdentity;
    var u := Written(t, commit, a);
    forall k | k in u.receipts
      ensures ReceiptNumbered(u.receipts[k], u.workflows)
    {
      if k in t.receipts && (commit.command.None? || k != KeyOf(commit.command.value)) {
        assert ReceiptNumbered(t.receipts[k], t.workflows);
      }
    }
    forall k | k in t.receipts && t.receipts[k].workflow == commit.snapshot.workflow
      ensures t.receipts[k].generation < commit.snapshot.generation
    {
      assert ReceiptNumbered(t.receipts[k], t.workflows);
    }
  }

  // ---- Runs ----

  /** What no commit undoes: receipts and consumed stops are permanent, a workflow keeps its owner and
      its entry evidence, and its generation never falls. */
  ghost predicate Evolves(t: Tables, u: Tables) {
    && (forall k :: k in t.receipts ==> k in u.receipts && u.receipts[k] == t.receipts[k])
    && (forall a :: a in t.actionOwners ==> a in u.actionOwners && u.actionOwners[a] == t.actionOwners[a])
    && (forall w :: w in t.workflows ==> w in u.workflows && Continues(t.workflows[w], u.workflows[w]))
  }

  ghost predicate Continues(a: Snapshot, b: Snapshot) {
    && a.owner == b.owner && a.generation <= b.generation
    && (forall x :: x in a.entered ==> x in b.entered)
  }

  lemma EvolvesTransitive(t: Tables, u: Tables, v: Tables)
    requires Evolves(t, u) && Evolves(u, v)
    ensures Evolves(t, v)
  {
  }

  lemma WrittenEvolves(t: Tables, commit: Commit, a: Accounting)
    requires WellFormed(commit) && Succeeds(Previous(t, commit), commit)
    requires commit.command.Some? ==> KeyOf(commit.command.value) !in t.receipts
    requires commit.command.Some? && commit.command.value.reservedAction.Some? ==> StopAllowed(t, commit, commit.command.value)
    ensures Evolves(t, Written(t, commit, a))
  {
    hide KeyOf, StopIdentity, WorkflowIdentity, Identity;
  }

  /** How many commits of a workflow a log holds. */
  ghost function CountOf(log: seq<string>, w: string): nat {
    if log == [] then 0 else CountOf(log[..|log| - 1], w) + (if log[|log| - 1] == w then 1 else 0)
  }

  /** Every workflow's generation is its number of applied commits. */
  ghost predicate Logged(t: Tables, log: seq<string>) {
    forall w :: CountOf(log, w) == if w in t.workflows then t.workflows[w].generation else 0
  }

  lemma LoggedOnce(t: Tables, log: seq<string>, commit: Commit, a: Accounting)
    requires Logged(t, log) && WellFormed(commit) && Succeeds(Previous(t, commit), commit)
    ensures Logged(Written(t, commit, a), log + [commit.snapshot.workflow])
  {
    hide KeyOf, WorkflowIdentity, Identity;
    var u := Written(t, commit, a);
    forall w
      ensures CountOf(log + [commit.snapshot.workflow], w) == if w in u.workflows then u.workflows[w].generation else 0
    {
      assert (log + [commit.snapshot.workflow])[..|log|] == log;
      assert CountOf(log, w) == if w in t.workflows then t.workflows[w].generation else 0;
    }
  }

  predicate CommandIdentified(commit: Commit) {
    commit.command.Some? ==> Identity(commit.command.value.actor) && Identity(commit.command.value.key)
  }

  /** A mandatory stop that consumes a reservation and meets nothing but the receipt limits. */
  predicate ReadyStop(t: Tables, commit: Commit) {
    && commit.command.Some? && commit.command.value.reservedAction.Some?
    && CommandIdentified(commit) && KeyOf(commit.command.value) !in t.receipts
    && WellFormed(commit) && commit.clockOk
    && Succeeds(Previous(t, commit), commit)
    && StopAllowed(t, commit, commit.command.value)
    && commit.snapshot.encodedBytes <= MAX_WORKFLOW_BYTES && commit.resourcesReady && commit.historyFits
    && Replace(t.accounting.historyBytes, Previous(t, commit).value.encodedBytes, commit.snapshot.encodedBytes).Ok?
    && Replace(t.accounting.reservedBytes, Previous(t, commit).value.reservedBytes, commit.snapshot.reservedBytes).Ok?
  }

  /** Every total fits its range, and the promised stop receipts still fit the limits. */
  ghost predicate SumsFit(t: Tables, limits: Limits) {
    && Sum(HistoryBytes(t)) <= U64_MAX && Sum(ReservedBytes(t)) <= U64_MAX
    && Sum(ReceiptSizes(t)) + ACTION_RECEIPT_BYTES * Sum(ReservedReceipts(t)) <= limits.receiptBytes
    && |t.receipts| + Sum(ReservedReceipts(t)) <= limits.receiptEntries
  }

  function StoredOr(stored: Option<Snapshot>, next: Snapshot): Snapshot {
    if stored.Some? then stored.value else next.(encodedBytes := 0, reservedBytes := 0, reservedReceipts := 0)
  }

  lemma AccountedFits(a: Accounting, stored: Option<Snapshot>, next: Snapshot, receipt: Option<Receipt>, limits: Limits)
    ensures var was := StoredOr(stored, next);
            was.encodedBytes <= a.historyBytes && was.reservedBytes <= a.reservedBytes && was.reservedReceipts <= a.reservedReceipts ==>
              (Accounted(a, stored, next, receipt).Ok? && ReserveKept(Accounted(a, stored, next, receipt).value, limits) <==>
                 && a.historyBytes - was.encodedBytes + next.encodedBytes <= U64_MAX
                 && a.reservedBytes - was.reservedBytes + next.reservedBytes <= U64_MAX
                 && a.receiptBytes + (if receipt.Some? then ReceiptBytes(receipt.value) else 0)
                    + ACTION_RECEIPT_BYTES * (a.reservedReceipts - was.reservedReceipts + next.reservedReceipts) <= limits.receiptBytes
                 && a.receiptEntries + (if receipt.Some? then 1 else 0)
                    + (a.reservedReceipts - was.reservedReceipts + next.reservedReceipts) <= limits.receiptEntries)
  {
    hide ReceiptBytes;
  }

  /** The incremental accounting succeeds exactly when the sums over the new tables fit. */
  lemma AccountingFits(t: Tables, commit: Commit, limits: Limits)
    requires AccountingAgrees(t)
    requires commit.command.Some? ==> KeyOf(commit.command.value) !in t.receipts
    ensures var a := Accounted(t.accounting, Previous(t, commit), commit.snapshot, ReceiptOf(commit));
            a.Ok? && ReserveKept(a.value, limits) <==> SumsFit(Written(t, commit, t.accounting), limits)
  {
    hide Sum, ReceiptBytes, KeyOf, HistoryBytes, ReservedBytes, ReservedReceipts, ReceiptSizes, Accounted, ReserveKept;
    var u := Written(t, commit, t.accounting);
    AccountedFits(t.accounting, Previous(t, commit), commit.snapshot, ReceiptOf(commit), limits);
    WorkflowSums(t, u, commit.snapshot, Previous(t, commit));
    if commit.command.Some? {
      ReceiptSums(t, u, KeyOf(commit.command.value), ReceiptOf(commit).value);
    } else {
      assert u.receipts == t.receipts;
      SameReceipts(t, u);
    }
  }

  /** A fresh, well-formed transition of the stored snapshot for which there is room. */
  ghost predicate MayCommit(t: Tables, commit: Commit, limits: Limits) {
    && CommandIdentified(commit) && (commit.command.Some? ==> KeyOf(commit.command.value) !in t.receipts)
    && WellFormed(commit) && commit.clockOk && commit.resourcesReady && commit.historyFits
    && Succeeds(Previous(t, commit), commit)
    && (commit.command.Some? && commit.command.value.reservedAction.Some? ==> StopAllowed(t, commit, commit.command.value))
    && commit.snapshot.encodedBytes <= MAX_WORKFLOW_BYTES
    && (commit.command.Some? ==> ReceiptBytes(ReceiptOf(commit).value) <= MAX_INTERNAL_DOCUMENT_BYTES)
    && SumsFit(Written(t, commit, t.accounting), limits)
  }

  /** What an applied commit leaves: the workflow one generation on, holding the submitted snapshot; for
      a command a receipt with that command, workflow and generation under its own key; and everything
      else as it was. */
  ghost predicate Recorded(t: Tables, u: Tables, commit: Commit, receipt: Option<Receipt>) {
    var w := commit.snapshot.workflow;
    && w in u.workflows && u.workflows == t.workflows[w := commit.snapshot]
    && u.workflows[w].generation == (if w in t.workflows then t.workflows[w].generation + 1 else 1)
    && (receipt.Some? <==> commit.command.Some?)
    && (receipt.None? ==> u.receipts == t.receipts && u.actionOwners == t.actionOwners)
    && (receipt.Some? ==>
          && receipt.value.command == commit.command.value && receipt.value.workflow == w
          && receipt.value.generation == u.workflows[w].generation
          && u.receipts == t.receipts[ReceiptKey(commit.command.value.actor, commit.command.value.key) := receipt.value]
          && u.actionOwners == if commit.command.value.reservedAction.Some?
                               then t.actionOwners[commit.command.value.reservedAction.value := commit.command.value.actor]
                               else t.actionOwners)
  }

  lemma WrittenIsRecorded(t: Tables, commit: Commit, a: Accounting)
    requires WellFormed(commit) && Succeeds(Previous(t, commit), commit)
    ensures Recorded(t, Written(t, commit, a), commit, ReceiptOf(commit))
  {
    hide Identity, WorkflowIdentity;
  }

  class TaskStore {
    const limits: Limits
    var tables: Tables
    ghost var log: seq<string>

    constructor (limits: Limits)
      ensures this.limits == limits && tables == EMPTY && log == []
      ensures Consistent(tables, limits) && Logged(tables, log)
    {
      hide Consistent;
      EmptyConsistent(limits);
      this.limits, tables, log := limits, EMPTY, [];
    }

    /** Commits a transition, once per actor and key. A known key is answered from its receipt before
        anything else is looked at; a refusal changes nothing; and a mandatory stop is never refused
        for want of receipt bytes or receipt entries. */
    method CommitWorkflow(commit: Commit) returns (result: Result<Outcome, Error>)
      requires Consistent(tables, limits) && Logged(tables, log)
      modifies this
      ensures Consistent(tables, limits) && Logged(tables, log) && Evolves(old(tables), tables)
      ensures result.Err? || result.value.Replay? ==> tables == old(tables) && log == old(log)
      ensures result.Err? ==> result.error != Corruption
      ensures commit.command.Some? && CommandIdentified(commit) && KeyOf(commit.command.value) in old(tables).receipts ==>
                var receipt := old(tables).receipts[KeyOf(commit.command.value)];
                result == if receipt.command.request == commit.command.value.request then Ok(Replay(receipt)) else Err(IdempotencyConflict)
      ensures result.Ok? && result.value.Replay? ==>
                && commit.command.Some?
                && result.value.original.command.actor == commit.command.value.actor
                && result.value.original.command.key == commit.command.value.key
      ensures result.Ok? && result.value.Applied? <==> MayCommit(old(tables), commit, limits)
      ensures result.Ok? && result.value.Applied? ==>
                && Recorded(old(tables), tables, commit, result.value.receipt)
                && tables == Written(old(tables), commit, tables.accounting)
                && log == old(log) + [commit.snapshot.workflow]
      ensures ReadyStop(old(tables), commit) ==> result == Ok(Applied(ReceiptOf(commit)))
    {
      hide Consistent, Logged, Evolves, KeyOf, WellFormed, Identity, StopAllowed, Accounted, ReserveKept, Written, SumsFit, ReceiptBytes;
      Refused(tables);
      if !CommandIdentified(commit) { return Err(BadIdentity); }
      if commit.command.Some? && KeyOf(commit.command.value) in tables.receipts {
        var receipt := tables.receipts[KeyOf(commit.command.value)];
        assert receipt.command.actor == commit.command.value.actor && receipt.command.key == commit.command.value.key by {
          ReplayIsOwn(tables, commit.command.value, limits);
        }
        if receipt.command.request != commit.command.value.request { return Err(IdempotencyConflict); }
        return Ok(Replay(receipt));
      }
      if !WellFormed(commit) { return Err(Malformed); }
      if !commit.clockOk { return Err(ClockRefused); }
      var stored := Previous(tables, commit);
      var actual := if stored.Some? then Some(stored.value.generation) else None;
      if actual != commit.expected { return Err(GenerationConflict(actual)); }
      if stored.Some? && stored.value.owner != commit.snapshot.owner { return Err(OwnerChanged); }
      if stored.Some? && exists i :: 0 <= i < |stored.value.entered| && stored.value.entered[i] !in commit.snapshot.entered {
        return Err(EvidenceRemoved);
      }
      if commit.command.Some? && commit.command.value.reservedAction.Some? {
        if !StopAllowed(tables, commit, commit.command.value) { return Err(StopRefused); }
        StopFits(tables, commit, limits);
      }
      if commit.snapshot.encodedBytes > MAX_WORKFLOW_BYTES { return Err(DocumentTooLarge); }
      if !commit.resourcesReady { return Err(ResourcesBusy); }
      var receipt := ReceiptOf(commit);
      if receipt.Some? && ReceiptBytes(receipt.value) > MAX_INTERNAL_DOCUMENT_BYTES { return Err(DocumentTooLarge); }
      if !CountsReceipts(tables) { CountIsRight(tables, limits); assert false; }
      CommitFollows(tables, log, commit, limits);
      assert AccountingAgrees(tables) by { CountIsRight(tables, limits); }
      AccountingFits(tables, commit, limits);
      var accounting := Accounted(tables.accounting, stored, commit.snapshot, receipt);
      if accounting.Err? { return Err(accounting.error); }
      if !commit.historyFits { return Err(HistoryFull); }
      if !ReserveKept(accounting.value, limits) { return Err(ReceiptsFull); }
      WrittenIsRecorded(tables, commit, accounting.value);
      tables := Written(tables, commit, accounting.value);
      log := log + [commit.snapshot.workflow];
      return Ok(Applied(receipt));
    }

    /** Any sequence of commits, replays and refusals. */
    method Run(commits: seq<Commit>)
      requires Consistent(tables, limits) && Logged(tables, log)
      modifies this
      ensures Consistent(tables, limits) && Logged(tables, log) && Evolves(old(tables), tables)
    {
      hide *;
      Refused(tables);
      for i := 0 to |commits|
        invariant Consistent(tables, limits) && Logged(tables, log) && Evolves(old(tables), tables)
      {
        ghost var before := tables;
        var _ := CommitWorkflow(commits[i]);
        EvolvesTransitive(old(tables), before, tables);
      }
    }
  }

  predicate CountsReceipts(t: Tables) { t.accounting.receiptEntries == |t.receipts| }

  lemma CountIsRight(t: Tables, limits: Limits)
    requires Consistent(t, limits)
    ensures CountsReceipts(t) && AccountingAgrees(t)
  {
  }

  lemma ReplayIsOwn(t: Tables, command: Command, limits: Limits)
    requires Consistent(t, limits) && KeyOf(command) in t.receipts
    ensures t.receipts[KeyOf(command)].command.actor == command.actor && t.receipts[KeyOf(command)].command.key == command.key
  {
    hide AccountingAgrees, StopsConsumedOnce, ReserveKept;
    ReceiptIsOwn(t, command.actor, command.key);
  }

  lemma Refused(t: Tables)
    ensures Evolves(t, t)
  {
  }

  lemma StopFits(t: Tables, commit: Commit, limits: Limits)
    requires Consistent(t, limits) && WellFormed(commit)
    requires commit.command.Some? && commit.command.value.reservedAction.Some? && StopAllowed(t, commit, commit.command.value)
    ensures ReceiptBytes(ReceiptOf(commit).value) <= MAX_INTERNAL_DOCUMENT_BYTES
    ensures var a := Accounted(t.accounting, Previous(t, commit), commit.snapshot, ReceiptOf(commit));
            && (a.Ok? ==> ReserveKept(a.value, limits))
            && (Replace(t.accounting.historyBytes, Previous(t, commit).value.encodedBytes, commit.snapshot.encodedBytes).Ok?
                && Replace(t.accounting.reservedBytes, Previous(t, commit).value.reservedBytes, commit.snapshot.reservedBytes).Ok?
                ==> a.Ok?)
  {
    hide Consistent, Accounted, ReserveKept, ReceiptBytes;
    StopReceiptFits(ReceiptOf(commit).value);
    StopKeepsReserve(t, commit, limits);
    if Replace(t.accounting.historyBytes, Previous(t, commit).value.encodedBytes, commit.snapshot.encodedBytes).Ok?
       && Replace(t.accounting.reservedBytes, Previous(t, commit).value.reservedBytes, commit.snapshot.reservedBytes).Ok? {
      StopOverflowsHistoryOnly(t, commit, limits);
    }
  }

  lemma CommitFollows(t: Tables, log: seq<string>, commit: Commit, limits: Limits)
    requires Consistent(t, limits) && Logged(t, log) && WellFormed(commit) && Succeeds(Previous(t, commit), commit)
    requires commit.command.Some? ==> KeyOf(commit.command.value) !in t.receipts
    requires commit.command.Some? && commit.command.value.reservedAction.Some? ==> StopAllowed(t, commit, commit.command.value)
    ensures var a := Accounted(t.accounting, Previous(t, commit), commit.snapshot, ReceiptOf(commit));
            && (a.Err? ==> a.error == Overflow)
            && (a.Ok? ==>
                  && Written(t, commit, a.value).accounting == a.value && Evolves(t, Written(t, commit, a.value))
                  && Logged(Written(t, commit, a.value), log + [commit.snapshot.workflow])
                  && (ReserveKept(a.value, limits) ==> Consistent(Written(t, commit, a.value), limits)))
  {
    hide AccountingAgrees, RowsOwned, StopsConsumedOnce, ReceiptsNumbered, Accounted, Evolves, Logged, KeyOf, StopAllowed, Succeeds, WellFormed,
         ReserveKept;
    var a := Accounted(t.accounting, Previous(t, commit), commit.snapshot, ReceiptOf(commit));
    AccountingFollows(t, commit, Written(t, commit, if a.Ok? then a.value else t.accounting));
    if a.Ok? {
      WrittenKeepsRows(t, commit, a.value);
      WrittenNumbers(t, commit, a.value);
      WrittenEvolves(t, commit, a.value);
      LoggedOnce(t, log, commit, a.value);
    }
  }
}
