/** The task store's tables: workflow snapshots, exact receipts, consumed stop identities and the
    accounting that must equal sums over them. */
module TaskTables {
  import opened Prelude
  import opened Sums
  import opened Decimal

  type InvocationId = nat

  /** Text is a sequence of bytes. `encodedBytes` is the length of the stored document, and
      `withinBounds` whether title, description and document respect their own bounds. */
  datatype Snapshot = Snapshot(
    workflow: string,
    generation: u64,
    owner: string,
    entered: seq<InvocationId>,
    reservedBytes: u64,
    reservedReceipts: u32,
    encodedBytes: u64,
    withinBounds: bool)

  /** `encodedBytes` is the length of the command document; `wellFormed` whether request and result
      respect their bounds and the request is canonical. */
  datatype Command = Command(
    actor: string,
    key: string,
    reservedAction: Option<string>,
    request: string,
    encodedBytes: nat,
    wellFormed: bool)

  datatype Receipt = Receipt(workflow: string, generation: u64, command: Command)

  datatype Accounting = Accounting(
    historyBytes: u64,
    receiptBytes: u64,
    receiptEntries: u64,
    reservedBytes: u64,
    reservedReceipts: u64)

  datatype Tables = Tables(
    workflows: map<string, Snapshot>,
    receipts: map<string, Receipt>,
    actionOwners: map<string, string>,
    accounting: Accounting)

  datatype Limits = Limits(receiptBytes: u64, receiptEntries: u32)

  const EMPTY: Tables := Tables(map[], map[], map[], Accounting(0, 0, 0, 0, 0))

  // ---- Keys and documents ----

  /** One to 512 bytes without control characters. */
  predicate Identity(text: string) {
    0 < |text| <= 512 && NoControls(text)
  }

  /** A workflow identity: at most 128 bytes of letters, digits and `-_.:`. */
  predicate WorkflowIdentity(text: string) {
    && 0 < |text| <= 128
    && forall i :: 0 <= i < |text| ==>
         'a' <= text[i] <= 'z' || 'A' <= text[i] <= 'Z' || '0' <= text[i] <= '9' || text[i] in "-_.:"
  }

  function ReceiptKey(actor: string, key: string): string {
    Numeral(|actor|) + ":" + (actor + key)
  }

  /** The length prefix makes the concatenation unambiguous: one key per actor and key. */
  lemma ReceiptKeyInjective(actor: string, key: string, otherActor: string, otherKey: string)
    requires ReceiptKey(actor, key) == ReceiptKey(otherActor, otherKey)
    ensures actor == otherActor && key == otherKey
  {
    NumeralPrefix(|actor|, |otherActor|, actor + key, otherActor + otherKey);
    assert (actor + key)[..|actor|] == actor && (otherActor + otherKey)[..|actor|] == otherActor;
    assert (actor + key)[|actor|..] == key && (otherActor + otherKey)[|actor|..] == otherKey;
  }

  /** The fixed text of a receipt document: 56 bytes up to the checksum, its 64 hexadecimal digits,
      25 up to the workflow, 15 up to the generation, 14 up to the command and 2 at the end. */
  const RECEIPT_TEXT_BYTES: nat := 56 + 64 + 25 + 15 + 14 + 2

  function ReceiptBytes(r: Receipt): nat {
    RECEIPT_TEXT_BYTES + |r.workflow| + |Numeral(r.generation)| + r.command.encodedBytes
  }

  /** The stored JSON text of a receipt, from its checksum digits and its encoded command. */
  function ReceiptText(r: Receipt, checksum: string, command: string): string {
    "{\"schema_version\":1,\"family\":\"task receipt\",\"checksum\":\"" + checksum
    + "\",\"payload\":{\"workflow\":\"" + r.workflow + "\",\"generation\":" + Numeral(r.generation)
    + ",\"acceptance\":" + command + "}}"
  }

  lemma ReceiptBytesExactly(r: Receipt, checksum: string, command: string)
    requires |checksum| == 64 && |command| == r.command.encodedBytes
    ensures |ReceiptText(r, checksum, command)| == ReceiptBytes(r)
  {
    assert |"{\"schema_version\":1,\"family\":\"task receipt\",\"checksum\":\""| == 56;
    assert |"\",\"payload\":{\"workflow\":\""| == 25 && |"\",\"generation\":"| == 15 && |",\"acceptance\":"| == 14 && |"}}"| == 2;
  }

  const ACTION_RECEIPT_BYTES: nat := 8192
  const ACTION_ENVELOPE_BYTES: nat := 1024
  const MAX_INTERNAL_DOCUMENT_BYTES: nat := 8_388_608

  /** What is set aside for the envelope of a stop receipt is enough for every workflow identity and
      every generation. */
  lemma StopReceiptFits(r: Receipt)
    requires WorkflowIdentity(r.workflow) && r.command.encodedBytes <= ACTION_RECEIPT_BYTES - ACTION_ENVELOPE_BYTES
    ensures ReceiptBytes(r) <= ACTION_RECEIPT_BYTES
  {
    assert Power(20) == 100_000_000_000_000_000_000 by { PowerOfTwenty(); }
    NumeralLength(r.generation, 20);
  }

  lemma PowerOfTwenty()
    ensures Power(20) == 100_000_000_000_000_000_000
  {
    assert Power(5) == 100_000;
    assert Power(10) == 100_000 * Power(5);
    assert Power(15) == 100_000 * Power(10);
    assert Power(20) == 100_000 * Power(15);
  }

  function StopPrefix(workflow: string): string { "stop:" + workflow + ":" }

  predicate StopIdentity(action: string, workflow: string) {
    StopPrefix(workflow) < action
  }

  // ---- What the accounting equals ----

  ghost function HistoryBytes(t: Tables): map<string, nat> { map w | w in t.workflows :: t.workflows[w].encodedBytes }
  ghost function ReservedBytes(t: Tables): map<string, nat> { map w | w in t.workflows :: t.workflows[w].reservedBytes }
  ghost function ReservedReceipts(t: Tables): map<string, nat> { map w | w in t.workflows :: t.workflows[w].reservedReceipts }
  ghost function ReceiptSizes(t: Tables): map<string, nat> { map k | k in t.receipts :: ReceiptBytes(t.receipts[k]) }

  ghost predicate AccountingAgrees(t: Tables) {
    && t.accounting.historyBytes == Sum(HistoryBytes(t))
    && t.accounting.reservedBytes == Sum(ReservedBytes(t))
    && t.accounting.reservedReceipts == Sum(ReservedReceipts(t))
    && t.accounting.receiptBytes == Sum(ReceiptSizes(t))
    && t.accounting.receiptEntries == |t.receipts|
  }

  /** Room for every promised stop receipt is kept free. */
  predicate ReserveKept(a: Accounting, limits: Limits) {
    && a.receiptBytes + ACTION_RECEIPT_BYTES * a.reservedReceipts <= limits.receiptBytes
    && a.receiptEntries + a.reservedReceipts <= limits.receiptEntries
  }

  // ---- Identities ----

  ghost predicate RowsOwned(t: Tables) {
    && (forall w :: w in t.workflows ==>
          && t.workflows[w].workflow == w && t.workflows[w].generation >= 1 && WorkflowIdentity(w)
          && 0 < |t.workflows[w].owner| <= 512 && t.workflows[w].withinBounds && |t.workflows[w].entered| <= 4096
          && (forall i, j :: 0 <= i < j < |t.workflows[w].entered| ==> t.workflows[w].entered[i] != t.workflows[w].entered[j]))
    && (forall k :: k in t.receipts ==> ReceiptKey(t.receipts[k].command.actor, t.receipts[k].command.key) == k)
  }

  /** Each consumed stop identity belongs to exactly one receipt, of its recorded actor. */
  ghost predicate StopsConsumedOnce(t: Tables) {
    && (forall k :: k in t.receipts && t.receipts[k].command.reservedAction.Some? ==>
          var action := t.receipts[k].command.reservedAction.value;
          && action in t.actionOwners && t.receipts[k].command.actor == t.actionOwners[action]
          && t.receipts[k].command.key == action)
    && (forall action :: action in t.actionOwners ==>
          var k := ReceiptKey(t.actionOwners[action], action);
          k in t.receipts && t.receipts[k].command.reservedAction == Some(action))
  }

  /** Every receipt names a stored workflow at a generation that workflow has had, and no two receipts
      share one. A consumed stop begins with the prefix of its own workflow. */
  ghost predicate ReceiptsNumbered(t: Tables) {
    && (forall k :: k in t.receipts ==> ReceiptNumbered(t.receipts[k], t.workflows))
    && (forall j, k :: j in t.receipts && k in t.receipts && j != k && t.receipts[j].workflow == t.receipts[k].workflow ==>
          t.receipts[j].generation != t.receipts[k].generation)
  }

  ghost predicate ReceiptNumbered(r: Receipt, workflows: map<string, Snapshot>) {
    && r.workflow in workflows && 1 <= r.generation <= workflows[r.workflow].generation
    && (r.command.reservedAction.Some? ==> "stop:" + r.workflow + ":" < r.command.reservedAction.value)
  }

  ghost predicate Consistent(t: Tables, limits: Limits) {
    AccountingAgrees(t) && ReserveKept(t.accounting, limits) && RowsOwned(t) && StopsConsumedOnce(t) && ReceiptsNumbered(t)
  }

  lemma EmptyConsistent(limits: Limits)
    ensures Consistent(EMPTY, limits)
  {
    assert HistoryBytes(EMPTY) == map[] && ReservedBytes(EMPTY) == map[];
    assert ReservedReceipts(EMPTY) == map[] && ReceiptSizes(EMPTY) == map[];
  }

  /** A key leads to the receipt of that very actor and key, or to none. */
  lemma ReceiptIsOwn(t: Tables, actor: string, key: string)
    requires RowsOwned(t) && ReceiptKey(actor, key) in t.receipts
    ensures var receipt := t.receipts[ReceiptKey(actor, key)];
            receipt.command.actor == actor && receipt.command.key == key
  {
    var receipt := t.receipts[ReceiptKey(actor, key)];
    ReceiptKeyInjective(receipt.command.actor, receipt.command.key, actor, key);
  }

  /** One stop identity, one receipt, whoever asks. */
  lemma StopConsumedOnce(t: Tables, j: string, k: string, action: string)
    requires StopsConsumedOnce(t) && RowsOwned(t) && j in t.receipts && k in t.receipts
    requires t.receipts[j].command.reservedAction == t.receipts[k].command.reservedAction == Some(action)
    ensures j == k
  {
  }
}
