/** Text tariffs: what a call may cost at most, what is reserved for it, and what it is charged. */
module Tariff {
  import opened Prelude

  const U128_MAX: nat := 0xFFFF_FFFF_FFFF_FFFF_FFFF_FFFF_FFFF_FFFF
  const MILLION: nat := 1_000_000
  const MICROS_PER_MINOR: nat := 10_000

  datatype Error = Overflow | InputUnknown | OutputUnknown | ExceedsContract | NotText
                 | ChargeOnUnbilled | OtherCurrency | CachedMissing | CachedExceeds | ChargeContradicts

  // ---- Charges ----

  datatype Category = Category(tokens: u64, rate: u64)

  /** The sum of tokens times rate, which must stay within 128 bits after every category. */
  function Numerator(categories: seq<Category>): Result<nat, Error> {
    if categories == [] then Ok(0)
    else
      var last := categories[|categories| - 1];
      var total :- Numerator(categories[..|categories| - 1]);
      if total + last.tokens * last.rate <= U128_MAX then Ok(total + last.tokens * last.rate) else Err(Overflow)
  }

  function CeilDiv(n: nat, d: nat): nat
    requires d > 0
  {
    n / d + (if n % d == 0 then 0 else 1)
  }

  function Charge(categories: seq<Category>): Result<u64, Error> {
    var numerator :- Numerator(categories);
    if CeilDiv(numerator, MILLION) <= U64_MAX then Ok(CeilDiv(numerator, MILLION)) else Err(Overflow)
  }

  /** The same sum without bounds. */
  function Exact(categories: seq<Category>): nat {
    if categories == [] then 0
    else Exact(categories[..|categories| - 1]) + categories[|categories| - 1].tokens * categories[|categories| - 1].rate
  }

  lemma {:induction false} NumeratorIsExact(categories: seq<Category>)
    ensures Numerator(categories) == if Exact(categories) <= U128_MAX then Ok(Exact(categories)) else Err(Overflow)
  {
    if categories != [] {
      NumeratorIsExact(categories[..|categories| - 1]);
    }
  }

  /** The least number of whole units that covers `n`. */
  lemma CeilDivIsLeast(n: nat, d: nat)
    requires d > 0
    ensures CeilDiv(n, d) * d >= n && (CeilDiv(n, d) > 0 ==> (CeilDiv(n, d) - 1) * d < n)
  {
    assert n == d * (n / d) + n % d;
  }

  lemma CeilDivMonotone(a: nat, b: nat, d: nat)
    requires a <= b && d > 0
    ensures CeilDiv(a, d) <= CeilDiv(b, d)
  {
    CeilDivIsLeast(a, d);
    CeilDivIsLeast(b, d);
    if CeilDiv(a, d) > CeilDiv(b, d) {
      Product(CeilDiv(b, d), CeilDiv(a, d) - 1, d);
    }
  }

  lemma Product(a: nat, b: nat, d: nat)
    requires a <= b
    ensures a * d <= b * d
  {
  }

  /** A charge is computable exactly when its rounded exact amount fits 64 bits: the 128-bit sum never
      overflows first. */
  lemma ChargeIsExact(categories: seq<Category>)
    ensures Charge(categories)
            == if CeilDiv(Exact(categories), MILLION) <= U64_MAX then Ok(CeilDiv(Exact(categories), MILLION)) else Err(Overflow)
  {
    NumeratorIsExact(categories);
    CeilDivIsLeast(Exact(categories), MILLION);
    if CeilDiv(Exact(categories), MILLION) <= U64_MAX {
      Product(CeilDiv(Exact(categories), MILLION), U64_MAX, MILLION);
    }
  }

  // ---- Billing ----

  datatype Billing =
    | UnknownBilling
    | Unbilled
    | TextTariff(currency: string, inputRate: u64, cachedRate: u64, outputRate: u64)

  datatype Bound<T> = UnknownBound | NotApplicable | Bounded(value: T)

  datatype Money = Money(micros: u64, currency: string)

  function Dearer(a: u64, b: u64): u64 { if a < b then b else a }

  /** What tokens may cost at most: all input at the dearer input rate. */
  function MonetaryBound(billing: Billing, input: Bound<u64>, output: Bound<u64>): Result<Bound<Money>, Error> {
    match billing
    case UnknownBilling => Ok(UnknownBound)
    case Unbilled => Ok(NotApplicable)
    case TextTariff(currency, inputRate, cachedRate, outputRate) =>
      if !input.Bounded? then Err(InputUnknown)
      else if !output.Bounded? then Err(OutputUnknown)
      else
        var cost :- Charge(Reservation(billing, input.value, output.value));
        Ok(Bounded(Money(cost, currency)))
  }

  function Reservation(billing: Billing, input: u64, output: u64): seq<Category>
    requires billing.TextTariff?
  {
    [Category(input, Dearer(billing.inputRate, billing.cachedRate)), Category(output, billing.outputRate)]
  }

  function Settlement(billing: Billing, uncached: u64, cached: u64, output: u64): seq<Category>
    requires billing.TextTariff?
  {
    [Category(uncached, billing.inputRate), Category(cached, billing.cachedRate), Category(output, billing.outputRate)]
  }

  lemma ExactAppend(categories: seq<Category>, last: Category)
    ensures Exact(categories + [last]) == Exact(categories) + last.tokens * last.rate
  {
    assert (categories + [last])[..|categories|] == categories;
  }

  lemma ExactOfReservation(billing: Billing, input: u64, output: u64)
    requires billing.TextTariff?
    ensures Exact(Reservation(billing, input, output))
            == input * Dearer(billing.inputRate, billing.cachedRate) + output * billing.outputRate
  {
    var c := Reservation(billing, input, output);
    ExactAppend([], c[0]);
    ExactAppend([c[0]], c[1]);
    assert [] + [c[0]] == [c[0]] && [c[0]] + [c[1]] == c;
  }

  lemma ExactOfSettlement(billing: Billing, uncached: u64, cached: u64, output: u64)
    requires billing.TextTariff?
    ensures Exact(Settlement(billing, uncached, cached, output))
            == uncached * billing.inputRate + cached * billing.cachedRate + output * billing.outputRate
  {
    var c := Settlement(billing, uncached, cached, output);
    ExactAppend([], c[0]);
    ExactAppend([c[0]], c[1]);
    ExactAppend([c[0], c[1]], c[2]);
    assert [] + [c[0]] == [c[0]] && [c[0]] + [c[1]] == [c[0], c[1]] && [c[0], c[1]] + [c[2]] == c;
  }

  lemma ProductGrows(a: nat, b: nat, x: nat, y: nat)
    requires a <= b && x <= y
    ensures a * x <= b * y
  {
    assert a * x <= a * y <= b * y by {
      assert a * (y - x) >= 0 && (b - a) * y >= 0;
    }
  }

  /** Fewer tokens cost no more, however the input is split into cached and uncached tokens. */
  lemma SplitCostsNoMore(billing: Billing, uncached: u64, cached: u64, spent: u64, input: u64, output: u64)
    requires billing.TextTariff? && uncached + cached <= input && spent <= output
    ensures Exact(Settlement(billing, uncached, cached, spent)) <= Exact(Reservation(billing, input, output))
  {
    ExactOfReservation(billing, input, output);
    ExactOfSettlement(billing, uncached, cached, spent);
    var rate := Dearer(billing.inputRate, billing.cachedRate);
    ProductGrows(uncached, uncached, billing.inputRate, rate);
    ProductGrows(cached, cached, billing.cachedRate, rate);
    ProductGrows(uncached + cached, input, rate, rate);
    ProductGrows(spent, output, billing.outputRate, billing.outputRate);
    assert (uncached + cached) * rate == uncached * rate + cached * rate;
  }

  lemma SmallerReservation(billing: Billing, input: u64, output: u64, maximumInput: u64, maximumOutput: u64)
    requires billing.TextTariff? && input <= maximumInput && output <= maximumOutput
    ensures Exact(Reservation(billing, input, output)) <= Exact(Reservation(billing, maximumInput, maximumOutput))
  {
    ExactOfReservation(billing, input, output);
    ExactOfReservation(billing, maximumInput, maximumOutput);
    var rate := Dearer(billing.inputRate, billing.cachedRate);
    ProductGrows(input, maximumInput, rate, rate);
    ProductGrows(output, maximumOutput, billing.outputRate, billing.outputRate);
  }

  /** What is at most as much is computable if the other is, and charged no more. */
  lemma ChargeMonotone(a: seq<Category>, b: seq<Category>)
    requires Exact(a) <= Exact(b) && Charge(b).Ok?
    ensures Charge(a).Ok? && Charge(a).value <= Charge(b).value
  {
    ChargeIsExact(a);
    ChargeIsExact(b);
    CeilDivMonotone(Exact(a), Exact(b), MILLION);
  }

  // ---- Requests ----

  /** The operator's token contract; a request is its encoded bytes, its message count and its output
      limit, with `textOnly` whether only supported text fields occur. */
  datatype Limits =
    | UnknownLimits
    | ByteBpe(perMessage: u64, perRequest: u64, maximumInput: u64, maximumOutput: u64)

  datatype Prepared = Prepared(bytes: u64, messages: u64, output: Option<u64>, textOnly: bool)

  /** The token bounds of an exact prepared request. */
  function PreparedBounds(limits: Limits, request: Prepared): (r: Result<(Bound<u64>, Bound<u64>), Error>)
    ensures limits.ByteBpe? ==>
              (r.Ok? <==>
                 && request.textOnly
                 && request.bytes + request.messages * limits.perMessage + limits.perRequest <= limits.maximumInput
                 && request.output.Some? && 0 < request.output.value <= limits.maximumOutput)
    ensures r.Ok? && limits.ByteBpe? ==>
              && r.value.0.Bounded? && r.value.0.value <= limits.maximumInput
              && r.value.1.Bounded? && request.output == Some(r.value.1.value) && 0 < r.value.1.value <= limits.maximumOutput
              && request.bytes + request.messages * limits.perMessage + limits.perRequest == r.value.0.value
  {
    match limits
    case UnknownLimits => Ok((UnknownBound, UnknownBound))
    case ByteBpe(perMessage, perRequest, maximumInput, maximumOutput) =>
      if !request.textOnly then Err(NotText)
      else if perMessage * request.messages > U64_MAX then Err(Overflow)
      else if request.bytes + perMessage * request.messages > U64_MAX then Err(Overflow)
      else if request.bytes + perMessage * request.messages + perRequest > U64_MAX then Err(Overflow)
      else if request.output.None? then Err(OutputUnknown)
      else
        var input := request.bytes + perMessage * request.messages + perRequest;
        if input > maximumInput || request.output.value == 0 || request.output.value > maximumOutput then Err(ExceedsContract)
        else Ok((Bounded(input), Bounded(request.output.value)))
  }

  function MaximumBounds(limits: Limits): (Bound<u64>, Bound<u64>) {
    match limits
    case UnknownLimits => (UnknownBound, UnknownBound)
    case ByteBpe(_, _, maximumInput, maximumOutput) => (Bounded(maximumInput), Bounded(maximumOutput))
  }

  function MaximumCost(billing: Billing, limits: Limits): Result<Bound<Money>, Error> {
    MonetaryBound(billing, MaximumBounds(limits).0, MaximumBounds(limits).1)
  }

  function ReservedCost(billing: Billing, limits: Limits, request: Prepared): Result<Bound<Money>, Error> {
    var bounds :- PreparedBounds(limits, request);
    MonetaryBound(billing, bounds.0, bounds.1)
  }

  /** The whole minor units that authority must allow for the largest call. */
  function AuthorityCostMinor(billing: Billing, limits: Limits): Result<Option<u64>, Error> {
    if limits.UnknownLimits? then Ok(None)
    else
      var cost :- MaximumCost(billing, limits);
      Ok(if cost.Bounded? then Some(CeilDivMinor(cost.value.micros)) else None)
  }

  function CeilDivMinor(micros: u64): u64 {
    CeilDivSmaller(micros);
    CeilDiv(micros, MICROS_PER_MINOR)
  }

  lemma CeilDivSmaller(micros: u64)
    ensures CeilDiv(micros, MICROS_PER_MINOR) <= U64_MAX
  {
    CeilDivMonotone(micros, U64_MAX, MICROS_PER_MINOR);
  }

  // ---- Usage ----

  datatype Usage = Usage(
    input: Option<u64>, output: Option<u64>, cached: Option<u64>, costMicros: Option<u64>, currency: Option<string>)

  /** The charge of reported usage under the tariff, when both token counts were reported. */
  function Calculated(billing: Billing, usage: Usage): Result<Option<u64>, Error>
    requires billing.TextTariff?
  {
    if usage.input.None? || usage.output.None? then Ok(None)
    else if usage.cached.None? && billing.inputRate != billing.cachedRate then Err(CachedMissing)
    else
      var cached: u64 := if usage.cached.Some? then usage.cached.value else 0;
      if usage.input.value < cached then Err(CachedExceeds)
      else
        var cost :- Charge(Settlement(billing, usage.input.value - cached, cached, usage.output.value));
        Ok(Some(cost))
  }

  function AccountedUsage(billing: Billing, usage: Usage): Result<Usage, Error> {
    match billing
    case UnknownBilling => Ok(usage)
    case Unbilled =>
      if usage.costMicros.Some? && usage.costMicros.value != 0 then Err(ChargeOnUnbilled)
      else Ok(usage.(costMicros := None, currency := None))
    case TextTariff(currency, _, _, _) =>
      if usage.currency.Some? && usage.currency.value != currency then Err(OtherCurrency)
      else
        var calculated :- Calculated(billing, usage);
        if usage.costMicros.Some? && usage.costMicros != calculated then Err(ChargeContradicts)
        else Ok(usage.(costMicros := calculated, currency := if calculated.Some? then Some(currency) else None))
  }

  /** Reported tokens stay within what was reserved for the request. */
  predicate Within(usage: Usage, input: u64, output: u64) {
    && (usage.input.Some? ==> usage.input.value <= input)
    && (usage.output.Some? ==> usage.output.value <= output)
  }

  // ---- The chain of bounds ----

  /** Once the largest call is computable, so is every prepared request, and it reserves no more; the
      authority allowance covers it in whole minor units. */
  lemma ReservedWithinMaximum(billing: Billing, limits: Limits, request: Prepared)
    requires billing.TextTariff? && limits.ByteBpe? && MaximumCost(billing, limits).Ok? && PreparedBounds(limits, request).Ok?
    ensures ReservedCost(billing, limits, request).Ok?
    ensures var reserved, maximum := ReservedCost(billing, limits, request).value, MaximumCost(billing, limits).value;
            && reserved.Bounded? && maximum.Bounded?
            && reserved.value.currency == maximum.value.currency == billing.currency
            && reserved.value.micros <= maximum.value.micros
            && AuthorityCostMinor(billing, limits).Ok? && AuthorityCostMinor(billing, limits).value.Some?
            && maximum.value.micros <= MICROS_PER_MINOR * AuthorityCostMinor(billing, limits).value.value
  {
    var bounds := PreparedBounds(limits, request).value;
    SmallerReservation(billing, bounds.0.value, bounds.1.value, limits.maximumInput, limits.maximumOutput);
    ChargeMonotone(Reservation(billing, bounds.0.value, bounds.1.value),
                   Reservation(billing, limits.maximumInput, limits.maximumOutput));
    CeilDivIsLeast(MaximumCost(billing, limits).value.value.micros, MICROS_PER_MINOR);
  }

  /** Settling within the reserved tokens never overflows and never charges more than was reserved, for
      every split of the input into cached and uncached tokens. */
  lemma SettledWithinReserved(billing: Billing, limits: Limits, request: Prepared, usage: Usage)
    requires billing.TextTariff? && limits.ByteBpe? && MaximumCost(billing, limits).Ok? && PreparedBounds(limits, request).Ok?
    requires Within(usage, PreparedBounds(limits, request).value.0.value, PreparedBounds(limits, request).value.1.value)
    ensures AccountedUsage(billing, usage) != Err(Overflow)
    ensures AccountedUsage(billing, usage).Ok? && AccountedUsage(billing, usage).value.costMicros.Some? ==>
              && ReservedCost(billing, limits, request).Ok? && ReservedCost(billing, limits, request).value.Bounded?
              && AccountedUsage(billing, usage).value.costMicros.value <= ReservedCost(billing, limits, request).value.value.micros
  {
    ReservedWithinMaximum(billing, limits, request);
    var bounds := PreparedBounds(limits, request).value;
    if usage.input.Some? && usage.output.Some? {
      var cached: u64 := if usage.cached.Some? then usage.cached.value else 0;
      if cached <= usage.input.value {
        SplitCostsNoMore(billing, usage.input.value - cached, cached, usage.output.value, bounds.0.value, bounds.1.value);
        ChargeMonotone(Settlement(billing, usage.input.value - cached, cached, usage.output.value),
                       Reservation(billing, bounds.0.value, bounds.1.value));
      }
    }
  }

  // ---- What exactly is charged ----

  /** The least whole number of micros that covers an amount in millionths of a micro. */
  predicate Covers(micros: nat, amount: int) {
    micros * MILLION >= amount && (micros > 0 ==> (micros - 1) * MILLION < amount)
  }

  lemma CoversOnce(a: nat, b: nat, amount: int)
    requires Covers(a, amount) && Covers(b, amount)
    ensures a == b
  {
  }

  lemma ChargeCovers(categories: seq<Category>)
    ensures Charge(categories).Ok? <==> Exact(categories) <= U64_MAX * MILLION
    ensures Charge(categories).Ok? ==> Covers(Charge(categories).value, Exact(categories))
    ensures Charge(categories).Err? ==> Charge(categories).error == Overflow
  {
    var amount := Exact(categories);
    ChargeIsExact(categories);
    CeilDivIsLeast(amount, MILLION);
    if CeilDiv(amount, MILLION) <= U64_MAX {
      Product(CeilDiv(amount, MILLION), U64_MAX, MILLION);
    } else {
      Product(U64_MAX, CeilDiv(amount, MILLION) - 1, MILLION);
    }
  }

  /** Both token counts were reported. */
  predicate Counted(usage: Usage) { usage.input.Some? && usage.output.Some? }

  function CachedCount(usage: Usage): u64 { if usage.cached.Some? then usage.cached.value else 0 }

  /** The tariff tells cached from other input, and the report does not. */
  predicate CachedUnknown(billing: Billing, usage: Usage)
    requires billing.TextTariff?
  {
    usage.cached.None? && billing.inputRate != billing.cachedRate
  }

  /** What reported usage comes to, in millionths of a micro: every input token once, at its own rate. */
  function Amount(billing: Billing, usage: Usage): int
    requires billing.TextTariff? && Counted(usage) && CachedCount(usage) <= usage.input.value
  {
    (usage.input.value - CachedCount(usage)) * billing.inputRate + CachedCount(usage) * billing.cachedRate
    + usage.output.value * billing.outputRate
  }

  /** Why a text tariff refuses reported usage, if it does, in the order of the checks. */
  predicate Refuses(billing: Billing, usage: Usage, error: Error)
    requires billing.TextTariff?
  {
    if usage.currency.Some? && usage.currency.value != billing.currency then error == OtherCurrency
    else if !Counted(usage) then usage.costMicros.Some? && error == ChargeContradicts
    else if CachedUnknown(billing, usage) then error == CachedMissing
    else if CachedCount(usage) > usage.input.value then error == CachedExceeds
    else if Amount(billing, usage) > U64_MAX * MILLION then error == Overflow
    else usage.costMicros.Some? && !Covers(usage.costMicros.value, Amount(billing, usage)) && error == ChargeContradicts
  }

  /** Settled usage under a text tariff: the charge is the least whole number of micros that covers the
      reported tokens at their own rates, in the tariff's currency; without both counts there is none;
      and every refusal is the stated one. */
  lemma SettledExactly(billing: Billing, usage: Usage)
    requires billing.TextTariff?
    ensures AccountedUsage(billing, usage).Err? <==> exists error :: Refuses(billing, usage, error)
    ensures forall error :: Refuses(billing, usage, error) ==> AccountedUsage(billing, usage) == Err(error)
    ensures AccountedUsage(billing, usage).Ok? ==>
              var settled := AccountedUsage(billing, usage).value;
              && settled.input == usage.input && settled.output == usage.output && settled.cached == usage.cached
              && (Counted(usage) ==>
                    && CachedCount(usage) <= usage.input.value && settled.currency == Some(billing.currency)
                    && settled.costMicros.Some? && Covers(settled.costMicros.value, Amount(billing, usage)))
              && (!Counted(usage) ==> settled.costMicros.None? && settled.currency.None?)
  {
    hide Charge, Exact, Covers;
    if Counted(usage) && !CachedUnknown(billing, usage) && CachedCount(usage) <= usage.input.value {
      var cached := CachedCount(usage);
      var parts := Settlement(billing, usage.input.value - cached, cached, usage.output.value);
      ExactOfSettlement(billing, usage.input.value - cached, cached, usage.output.value);
      ChargeCovers(parts);
      if usage.costMicros.Some? && Covers(usage.costMicros.value, Exact(parts)) && Charge(parts).Ok? {
        CoversOnce(usage.costMicros.value, Charge(parts).value, Exact(parts));
      }
    }
    if AccountedUsage(billing, usage).Err? {
      assert Refuses(billing, usage, AccountedUsage(billing, usage).error);
    }
  }

  /** Usage that is not billed carries no charge, and a provider that states one is refused. */
  lemma UnbilledExactly(usage: Usage)
    ensures AccountedUsage(Unbilled, usage) == Err(ChargeOnUnbilled) <==> usage.costMicros.Some? && usage.costMicros.value != 0
    ensures AccountedUsage(Unbilled, usage) != Err(ChargeOnUnbilled) ==>
              AccountedUsage(Unbilled, usage) == Ok(Usage(usage.input, usage.output, usage.cached, None, None))
    ensures AccountedUsage(UnknownBilling, usage) == Ok(usage)
  {
  }

  /** A reservation is the cost of the dearest split of the request's own tokens and no more, and the
      authority allowance the least whole number of minor units that covers the largest call. */
  lemma ReservedExactly(billing: Billing, limits: Limits, request: Prepared, rate: u64)
    requires billing.TextTariff? && limits.ByteBpe? && PreparedBounds(limits, request).Ok?
    requires rate in {billing.inputRate, billing.cachedRate} && rate >= billing.inputRate && rate >= billing.cachedRate
    ensures var input := request.bytes + request.messages * limits.perMessage + limits.perRequest;
            ReservedCost(billing, limits, request).Ok? ==>
              && ReservedCost(billing, limits, request).value.Bounded?
              && Covers(ReservedCost(billing, limits, request).value.value.micros, input * rate + request.output.value * billing.outputRate)
    ensures MaximumCost(billing, limits).Ok? ==>
              && MaximumCost(billing, limits).value.Bounded?
              && Covers(MaximumCost(billing, limits).value.value.micros, limits.maximumInput * rate + limits.maximumOutput * billing.outputRate)
              && AuthorityCostMinor(billing, limits).Ok? && AuthorityCostMinor(billing, limits).value.Some?
              && var minor, micros := AuthorityCostMinor(billing, limits).value.value, MaximumCost(billing, limits).value.value.micros;
              && micros <= MICROS_PER_MINOR * minor && (minor > 0 ==> MICROS_PER_MINOR * (minor - 1) < micros)
  {
    hide Charge, Exact, Covers;
    var bounds := PreparedBounds(limits, request).value;
    assert rate == Dearer(billing.inputRate, billing.cachedRate);
    ExactOfReservation(billing, bounds.0.value, bounds.1.value);
    ChargeCovers(Reservation(billing, bounds.0.value, bounds.1.value));
    ExactOfReservation(billing, limits.maximumInput, limits.maximumOutput);
    ChargeCovers(Reservation(billing, limits.maximumInput, limits.maximumOutput));
    if MaximumCost(billing, limits).Ok? {
      CeilDivIsLeast(MaximumCost(billing, limits).value.value.micros, MICROS_PER_MINOR);
    }
  }
}
