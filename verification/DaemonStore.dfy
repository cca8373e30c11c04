/** The daemon's display name: one installation record, a finite set of exact rename receipts, and
    the validator that must accept every history the writer leaves. */
module DaemonStore {
  import opened Prelude
  import opened Sums
  import opened Decimal
  import TaskTables

  /** A display name and the length of its JSON text. */
  datatype Name = Name(text: string, encodedBytes: nat)

  datatype Metadata = Metadata(installation: string, name: Name, generation: u64)

  /** The request bytes and whether they are canonical JSON. */
  datatype Request = Request(bytes: string, canonical: bool)

  datatype Receipt = Receipt(installation: string, actor: string, key: string, request: Request, result: Metadata)

  datatype Tables = Tables(host: Option<string>, metadata: map<string, Metadata>, receipts: map<string, Receipt>)

  const EMPTY: Tables := Tables(None, map[], map[])

  const METADATA_KEY: string := "installation"
  const MAX_RENAME_RECEIPTS: nat := 1_024
  const MAX_RECEIPT_BYTES: nat := 16 * 1024

  datatype Error =
    | BadKey
    | OtherInstallation
    | NotInitialized
    | IdempotencyConflict
    | GenerationConflict(actual: u64)
    | CapacityFull
    | TooLarge
    | NotCanonical
    | Corruption

  predicate KeyAllowed(key: string) {
    0 < |key| <= 512 && key != "." && key != ".." && NoControls(key)
  }

  function ReceiptKey(actor: string, key: string): string { TaskTables.ReceiptKey(actor, key) }

  /** The JSON length of a metadata record: 49 bytes of field names and punctuation. */
  function MetadataBytes(m: Metadata): nat {
    49 + |m.installation| + m.name.encodedBytes + |Numeral(m.generation)|
  }

  /** The JSON text of a record whose name is encoded as `name`. */
  function MetadataText(m: Metadata, name: string): string {
    "{\"installation\":\"" + m.installation + "\",\"display_name\":" + name + ",\"generation\":" + Numeral(m.generation) + "}"
  }

  lemma MetadataBytesExactly(m: Metadata, name: string)
    requires |name| == m.name.encodedBytes
    ensures |MetadataText(m, name)| == MetadataBytes(m)
  {
    assert |"{\"installation\":\""| == 17 && |"\",\"display_name\":"| == 17 && |",\"generation\":"| == 14 && |"}"| == 1;
  }

  /** The checks every receipt passes when it is written and when it is read. */
  function ReceiptError(r: Receipt): Option<Error> {
    if !KeyAllowed(r.key) then Some(BadKey)
    else if r.installation != r.result.installation || r.result.generation < 2 then Some(Corruption)
    else if |r.request.bytes| + MetadataBytes(r.result) > MAX_RECEIPT_BYTES then Some(TooLarge)
    else if !r.request.canonical then Some(NotCanonical)
    else None
  }

  predicate ReceiptGood(key: string, r: Receipt) {
    ReceiptError(r).None? && ReceiptKey(r.actor, r.key) == key
  }

  function CurrentMetadata(t: Tables): Result<Option<Metadata>, Error> {
    if |t.metadata| != (if METADATA_KEY in t.metadata then 1 else 0) then Err(Corruption)
    else if METADATA_KEY !in t.metadata then Ok(None)
    else
      var m := t.metadata[METADATA_KEY];
      if m.generation == 0 || m.generation > MAX_RENAME_RECEIPTS + 1 then Err(Corruption) else Ok(Some(m))
  }

  // ---- What a history must be ----

  /** The receipts are numbered 2 to the current generation, each number once, and the newest receipt
      is the current record. */
  ghost predicate Numbered(receipts: map<string, Receipt>, current: Metadata) {
    && (forall k :: k in receipts ==> Fits(k, receipts[k], current))
    && Distinct(receipts)
    && (forall g :: 2 <= g <= current.generation ==> HasNumber(receipts, g))
  }

  ghost predicate HasNumber(receipts: map<string, Receipt>, g: nat) {
    exists k :: k in receipts && receipts[k].result.generation == g
  }

  /** No two receipts share a number. */
  ghost predicate Distinct(receipts: map<string, Receipt>) {
    forall j, k :: j in receipts && k in receipts && receipts[j].result.generation == receipts[k].result.generation ==> j == k
  }

  ghost predicate DistinctOutside(receipts: map<string, Receipt>, rest: set<string>) {
    forall j, k :: (j in receipts && k in receipts && j !in rest && k !in rest
                    && receipts[j].result.generation == receipts[k].result.generation) ==> j == k
  }

  ghost predicate ValidHistory(t: Tables) {
    if t.metadata == map[] then t.receipts == map[]
    else
      && t.metadata.Keys == {METADATA_KEY}
      && var current := t.metadata[METADATA_KEY];
      && t.host == Some(current.installation)
      && 1 <= current.generation <= MAX_RENAME_RECEIPTS + 1
      && Numbered(t.receipts, current)
  }

  // ---- Counting ----

  ghost function Numbers(receipts: map<string, Receipt>): set<nat> {
    set k | k in receipts :: receipts[k].result.generation
  }

  /** The numbers 2 to `high`. */
  ghost function Through(high: nat): (numbers: set<nat>)
    ensures forall g :: g in numbers <==> 2 <= g <= high
    ensures |numbers| == if high < 2 then 0 else high - 1
  {
    if high < 2 then {} else Through(high - 1) + {high}
  }

  lemma NumbersWithout(receipts: map<string, Receipt>, k: string)
    requires Distinct(receipts) && k in receipts
    ensures Numbers(receipts) == Numbers(receipts - {k}) + {receipts[k].result.generation}
    ensures receipts[k].result.generation !in Numbers(receipts - {k})
    ensures |receipts| == |receipts - {k}| + 1
  {
    assert receipts == (receipts - {k})[k := receipts[k]];
    SizeAfterAdd(receipts - {k}, k, receipts[k]);
    forall g | g in Numbers(receipts)
      ensures g in Numbers(receipts - {k}) + {receipts[k].result.generation}
    {
      var j :| j in receipts && receipts[j].result.generation == g;
      if j != k {
        assert j in receipts - {k};
      }
    }
  }

  /** Distinct numbers are as many as the receipts. */
  lemma {:induction false} NumbersSize(receipts: map<string, Receipt>)
    requires Distinct(receipts)
    ensures |Numbers(receipts)| == |receipts|
    decreases |receipts|
  {
    if receipts == map[] {
      assert Numbers(receipts) == {};
    } else {
      var k :| k in receipts;
      NumbersWithout(receipts, k);
      NumbersSize(receipts - {k});
    }
  }

  /** Distinct numbers within 2 and the generation leave none out exactly when they are as many. */
  lemma NoneLeftOut(receipts: map<string, Receipt>, generation: nat)
    requires generation >= 1 && Distinct(receipts)
    requires forall k :: k in receipts ==> 2 <= receipts[k].result.generation <= generation
    ensures |receipts| + 1 == generation <==> forall g :: 2 <= g <= generation ==> HasNumber(receipts, g)
  {
    NumbersSize(receipts);
    hide Through;
    assert Numbers(receipts) <= Through(generation);
    assert forall g :: g in Numbers(receipts) <==> HasNumber(receipts, g);
    if |receipts| + 1 == generation {
      SubsetOfSameSize(Numbers(receipts), Through(generation));
    }
    if forall g :: 2 <= g <= generation ==> HasNumber(receipts, g) {
      assert Through(generation) == Numbers(receipts);
    }
  }

  // ---- The validator ----

  /** Checks the whole history. */
  method Validate(t: Tables) returns (ok: bool)
    ensures ok <==> ValidHistory(t)
  {
    hide ReceiptGood, HasNumber, Numbered, Checked, ValidHistory, Fits;
    var current := CurrentMetadata(t);
    HistoryShape(t);
    if current.Err? { return false; }
    if current.value.None? { return t.receipts == map[]; }
    var metadata := current.value.value;
    if t.host.None? || t.host.value != metadata.installation { return false; }
    if |t.receipts| > MAX_RENAME_RECEIPTS || |t.receipts| + 1 != metadata.generation {
      CountOfHistory(t);
      return false;
    }
    var seen: set<nat> := {};
    var rest := t.receipts.Keys;
    CheckedStart(t.receipts, metadata);
    while rest != {}
      invariant rest <= t.receipts.Keys && Checked(t.receipts, rest, metadata, seen)
      decreases |rest|
    {
      var k :| k in rest;
      var receipt := t.receipts[k];
      FitsWhen(k, receipt, metadata);
      if !ReceiptGood(k, receipt) || receipt.installation != metadata.installation
         || receipt.result.generation > metadata.generation || receipt.result.generation in seen
         || (receipt.result.generation == metadata.generation && receipt.result != metadata) {
        CheckedSoFar(t.receipts, rest, metadata, seen, k);
        return false;
      }
      CheckedStep(t.receipts, rest, metadata, seen, k);
      seen := seen + {receipt.result.generation};
      rest := rest - {k};
    }
    CheckedAll(t.receipts, metadata, seen);
    return true;
  }

  /** What a valid history is, case by case of the installation record. */
  lemma HistoryShape(t: Tables)
    ensures CurrentMetadata(t).Err? ==> !ValidHistory(t)
    ensures CurrentMetadata(t) == Ok(None) ==> (ValidHistory(t) <==> t.receipts == map[])
    ensures CurrentMetadata(t).Ok? && CurrentMetadata(t).value.Some? ==>
              && METADATA_KEY in t.metadata && t.metadata[METADATA_KEY] == CurrentMetadata(t).value.value
              && CurrentMetadata(t).value.value.generation >= 1
              && (ValidHistory(t) <==>
                    && t.host == Some(CurrentMetadata(t).value.value.installation)
                    && Numbered(t.receipts, CurrentMetadata(t).value.value))
  {
    hide Numbered;
    MetadataShape(t);
  }

  lemma CheckedStart(receipts: map<string, Receipt>, current: Metadata)
    ensures Checked(receipts, receipts.Keys, current, {})
  {
  }

  lemma FitsWhen(k: string, r: Receipt, current: Metadata)
    ensures Fits(k, r, current) <==>
              && ReceiptGood(k, r) && r.installation == current.installation && r.result.generation <= current.generation
              && (r.result.generation == current.generation ==> r.result == current)
  {
  }

  lemma CheckedAll(receipts: map<string, Receipt>, current: Metadata, seen: set<nat>)
    requires Checked(receipts, {}, current, seen) && |receipts| + 1 == current.generation
    ensures Numbered(receipts, current)
  {
    hide ReceiptGood;
    NoneLeftOut(receipts, current.generation);
  }

  /** Every receipt outside `rest` passed, and `seen` holds their numbers. */
  ghost predicate Checked(receipts: map<string, Receipt>, rest: set<string>, current: Metadata, seen: set<nat>) {
    && rest <= receipts.Keys
    && (forall k :: k in receipts && k !in rest ==> Fits(k, receipts[k], current) && receipts[k].result.generation in seen)
    && DistinctOutside(receipts, rest)
    && (forall g :: g in seen ==> exists k :: k in receipts && k !in rest && receipts[k].result.generation == g)
  }

  predicate Fits(k: string, r: Receipt, current: Metadata) {
    && ReceiptGood(k, r) && r.installation == current.installation
    && 2 <= r.result.generation <= current.generation
    && (r.result.generation == current.generation ==> r.result == current)
  }

  lemma CheckedStep(receipts: map<string, Receipt>, rest: set<string>, current: Metadata, seen: set<nat>, k: string)
    requires Checked(receipts, rest, current, seen) && k in rest && Fits(k, receipts[k], current)
    requires receipts[k].result.generation !in seen
    ensures Checked(receipts, rest - {k}, current, seen + {receipts[k].result.generation})
  {
    hide Fits;
    forall g | g in seen + {receipts[k].result.generation}
      ensures exists j :: j in receipts && j !in rest - {k} && receipts[j].result.generation == g
    {
      if g in seen {
        var j :| j in receipts && j !in rest && receipts[j].result.generation == g;
        assert j !in rest - {k};
      } else {
        assert k !in rest - {k};
      }
    }
  }

  /** A receipt that fails a check, or repeats a number, cannot belong to a numbered history. */
  lemma CheckedSoFar(receipts: map<string, Receipt>, rest: set<string>, current: Metadata, seen: set<nat>, k: string)
    requires Checked(receipts, rest, current, seen) && k in rest
    requires !Fits(k, receipts[k], current) || receipts[k].result.generation in seen
    ensures !Numbered(receipts, current)
  {
    hide Fits;
    if receipts[k].result.generation in seen {
      var j :| j in receipts && j !in rest && receipts[j].result.generation == receipts[k].result.generation;
    }
  }

  lemma MetadataShape(t: Tables)
    ensures t.metadata.Keys == {METADATA_KEY} <==> METADATA_KEY in t.metadata && |t.metadata| == 1
    ensures t.metadata == map[] <==> |t.metadata| == 0
  {
    if METADATA_KEY in t.metadata && |t.metadata| == 1 {
      assert |t.metadata.Keys - {METADATA_KEY}| == 0;
    }
    if t.metadata.Keys == {METADATA_KEY} {
      assert |t.metadata| == |t.metadata.Keys|;
    }
  }

  lemma NumberedFromTwo(k: string, receipt: Receipt)
    requires ReceiptGood(k, receipt)
    ensures receipt.result.generation >= 2 && receipt.installation == receipt.result.installation
  {
  }

  lemma CountOfHistory(t: Tables)
    requires METADATA_KEY in t.metadata
    ensures ValidHistory(t) ==> |t.receipts| + 1 == t.metadata[METADATA_KEY].generation <= MAX_RENAME_RECEIPTS + 1
  {
    if ValidHistory(t) {
      NoneLeftOut(t.receipts, t.metadata[METADATA_KEY].generation);
    }
  }

  // ---- The writer ----

  datatype Rename = Rename(installation: string, actor: string, key: string, expected: u64, name: Name, request: Request)

  datatype Outcome = Applied(receipt: Receipt) | Replay(receipt: Receipt)

  function ReceiptFor(rename: Rename, generation: u64): Receipt {
    Receipt(rename.installation, rename.actor, rename.key, rename.request, Metadata(rename.installation, rename.name, generation))
  }

  /** The host binding after a transaction binds it, if it may. */
  function Bound(host: Option<string>, installation: string): Result<Option<string>, Error> {
    if host.Some? && host.value != installation then Err(OtherInstallation) else Ok(Some(installation))
  }

  /** What no transaction undoes: the binding, every receipt, and the generation. */
  ghost predicate Evolves(t: Tables, u: Tables) {
    && (t.host.Some? ==> u.host == t.host)
    && (forall k :: k in t.receipts ==> k in u.receipts && u.receipts[k] == t.receipts[k])
    && (METADATA_KEY in t.metadata ==>
          METADATA_KEY in u.metadata && t.metadata[METADATA_KEY].generation <= u.metadata[METADATA_KEY].generation)
  }

  lemma RenameKeepsHistory(t: Tables, u: Tables, current: Metadata, key: string, receipt: Receipt)
    requires ValidHistory(t) && t.metadata == map[METADATA_KEY := current]
    requires current.generation <= MAX_RENAME_RECEIPTS
    requires ReceiptGood(key, receipt) && receipt.result.generation == current.generation + 1
    requires receipt.installation == current.installation && key !in t.receipts
    requires u == Tables(Some(receipt.installation), t.metadata[METADATA_KEY := receipt.result], t.receipts[key := receipt])
    ensures ValidHistory(u)
  {
    hide ReceiptGood;
    assert t.metadata[METADATA_KEY] == current;
    NumberedFromTwo(key, receipt);
    assert u.metadata.Keys == {METADATA_KEY};
    forall g | 2 <= g <= receipt.result.generation
      ensures HasNumber(u.receipts, g)
    {
      if g <= current.generation {
        assert HasNumber(t.receipts, g);
        var k :| k in t.receipts && t.receipts[k].result.generation == g;
        assert u.receipts[k].result.generation == g;
      } else {
        assert u.receipts[key].result.generation == g;
      }
    }
    assert Distinct(u.receipts);
    assert Numbered(u.receipts, receipt.result);
  }

  /** The receipt of a rename: who asked what under which key, and the requested name one generation on. */
  ghost predicate Renames(rename: Rename, current: Metadata, receipt: Receipt) {
    && receipt.actor == rename.actor && receipt.key == rename.key && receipt.request == rename.request
    && receipt.installation == rename.installation == current.installation
    && receipt.result.installation == rename.installation && receipt.result.name == rename.name
    && receipt.result.generation == current.generation + 1
  }

  /** A fresh rename of this installation at its current generation, with room for its receipt. */
  predicate MayRename(t: Tables, rename: Rename) {
    && KeyAllowed(rename.key) && t.host == Some(rename.installation)
    && METADATA_KEY in t.metadata && t.metadata[METADATA_KEY].generation == rename.expected
    && ReceiptKey(rename.actor, rename.key) !in t.receipts && |t.receipts| < MAX_RENAME_RECEIPTS
    && rename.expected < U64_MAX && rename.request.canonical
    && |rename.request.bytes| + MetadataBytes(ReceiptFor(rename, rename.expected + 1).result) <= MAX_RECEIPT_BYTES
  }

  class DaemonStore {
    var tables: Tables

    constructor ()
      ensures tables == EMPTY && ValidHistory(tables)
    {
      tables := EMPTY;
    }

    /** Binds the installation and writes its first record, once. */
    method Initialize(installation: string, seed: Name) returns (result: Result<Metadata, Error>)
      requires ValidHistory(tables)
      modifies this
      ensures ValidHistory(tables) && Evolves(old(tables), tables)
      ensures result.Err? ==> tables == old(tables) && result.error == OtherInstallation
      ensures result.Err? <==> old(tables).host.Some? && old(tables).host.value != installation
      ensures result.Ok? ==>
                if METADATA_KEY in old(tables).metadata then
                  tables == old(tables) && result.value == old(tables).metadata[METADATA_KEY]
                else
                  && result.value == Metadata(installation, seed, 1)
                  && tables == Tables(Some(installation), map[METADATA_KEY := result.value], map[])
    {
      MetadataShape(tables);
      var host :- Bound(tables.host, installation);
      var current := CurrentMetadata(tables);
      if current.Err? { assert false; }
      if current.value.Some? {
        if current.value.value.installation != installation { assert false; }
        return Ok(current.value.value);
      }
      if tables.receipts != map[] { assert false; }
      var metadata := Metadata(installation, seed, 1);
      assert tables.metadata == map[];
      tables := Tables(host, tables.metadata[METADATA_KEY := metadata], tables.receipts);
      return Ok(metadata);
    }

    /** Renames the daemon once per actor and key. A known key is answered from its receipt whatever
        the generation and however full the receipts are. */
    method RenameDaemon(rename: Rename) returns (result: Result<Outcome, Error>)
      requires ValidHistory(tables)
      modifies this
      ensures ValidHistory(tables) && Evolves(old(tables), tables)
      ensures result.Err? || result.value.Replay? ==> tables == old(tables)
      ensures result.Err? ==> result.error != Corruption
      ensures (KeyAllowed(rename.key) && ReceiptKey(rename.actor, rename.key) in old(tables).receipts
               && old(tables).host == Some(rename.installation)) ==>
                var receipt := old(tables).receipts[ReceiptKey(rename.actor, rename.key)];
                result == if receipt.request == rename.request then Ok(Replay(receipt)) else Err(IdempotencyConflict)
      ensures result.Ok? && result.value.Applied? <==> MayRename(old(tables), rename)
      ensures result.Ok? && result.value.Applied? ==>
                && METADATA_KEY in old(tables).metadata
                && var current := old(tables).metadata[METADATA_KEY];
                && current.generation <= MAX_RENAME_RECEIPTS
                && result.value.receipt == ReceiptFor(rename, current.generation + 1)
                && tables == Tables(
                     Some(rename.installation),
                     map[METADATA_KEY := result.value.receipt.result],
                     old(tables).receipts[ReceiptKey(rename.actor, rename.key) := result.value.receipt])
                && Renames(rename, current, result.value.receipt)
      ensures result == Err(CapacityFull) ==> |old(tables).receipts| == MAX_RENAME_RECEIPTS
    {
      hide ReceiptKey, Numbered, MetadataBytes;
      if !KeyAllowed(rename.key) { return Err(BadKey); }
      var key := ReceiptKey(rename.actor, rename.key);
      var host :- Bound(tables.host, rename.installation);
      MetadataShape(tables);
      var found := CurrentMetadata(tables);
      if found.Err? { assert false; }
      if found.value.None? { return Err(NotInitialized); }
      var current := found.value.value;
      if current.installation != rename.installation { assert false; }
      if key in tables.receipts {
        var receipt := tables.receipts[key];
        KnownReceipt(tables, key);
        if !ReceiptGood(key, receipt) { assert false; }
        if receipt.installation != rename.installation { assert false; }
        if receipt.request != rename.request { return Err(IdempotencyConflict); }
        return Ok(Replay(receipt));
      }
      if current.generation != rename.expected { return Err(GenerationConflict(current.generation)); }
      CountOfHistory(tables);
      if |tables.receipts| + 1 != current.generation { assert false; }
      if |tables.receipts| >= MAX_RENAME_RECEIPTS { return Err(CapacityFull); }
      var receipt := ReceiptFor(rename, current.generation + 1);
      if ReceiptError(receipt).Some? { return Err(ReceiptError(receipt).value); }
      var write := Tables(host, tables.metadata[METADATA_KEY := receipt.result], tables.receipts[key := receipt]);
      OneRecord(tables, current);
      RenameKeepsHistory(tables, write, current, key, receipt);
      tables := write;
      return Ok(Applied(receipt));
    }

    /** Every history reachable by initializations and renames is one the validator accepts. */
    method Run(ops: seq<Op>) returns (ok: bool)
      requires ValidHistory(tables)
      modifies this
      ensures ValidHistory(tables) && Evolves(old(tables), tables) && ok
    {
      hide ValidHistory;
      for i := 0 to |ops|
        invariant ValidHistory(tables) && Evolves(old(tables), tables)
      {
        match ops[i] {
          case First(installation, seed) => var _ := Initialize(installation, seed);
          case Another(rename) => var _ := RenameDaemon(rename);
        }
      }
      ok := Validate(tables);
    }
  }

  datatype Op = First(installation: string, seed: Name) | Another(rename: Rename)

  lemma KnownReceipt(t: Tables, key: string)
    requires ValidHistory(t) && key in t.receipts
    ensures ReceiptGood(key, t.receipts[key]) && t.host == Some(t.receipts[key].installation)
  {
    hide ReceiptGood;
  }

  lemma OneRecord(t: Tables, current: Metadata)
    requires t.metadata.Keys == {METADATA_KEY} && t.metadata[METADATA_KEY] == current
    ensures t.metadata == map[METADATA_KEY := current]
    ensures forall m :: t.metadata[METADATA_KEY := m] == map[METADATA_KEY := m]
  {
  }
}
