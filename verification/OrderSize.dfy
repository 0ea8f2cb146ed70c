/** OKX order sizes: quantisation (internal/venue/cex.go) and the conversion of a quote amount into
 contracts (internal/venue/cex_okx_trade.go). */
module OrderSize {
  import opened Wrappers
  import opened Decimals

  datatype InstrumentSpec = InstrumentSpec(contractValue: Decimal, lotSize: Decimal, minSize: Decimal)

  datatype SizeError = InvalidAmount | InvalidIncrement | Arithmetic(error: DecimalError) | BelowMinimum

  function QuantizeDown(value: Decimal, increment: Decimal): Result<Decimal, SizeError> {
    if !IsPositive(increment) then Err(InvalidIncrement)
    else
      match QuoScale(value, increment, 0, RoundDown)
      case Err(e) => Err(Arithmetic(e))
      case Ok(units) => Ok(Mul(units, increment))
  }

  /** The quote amount in whole lots of contracts. */
  function LotsOfContracts(quote: Decimal, price: Decimal, spec: InstrumentSpec): Result<Decimal, SizeError> {
    if !IsPositive(quote) || !IsPositive(price) || !IsPositive(spec.contractValue) then Err(InvalidAmount)
    else
      match Quo(quote, price)
      case Err(e) => Err(Arithmetic(e))
      case Ok(base) =>
        match Quo(base, spec.contractValue)
        case Err(e) => Err(Arithmetic(e))
        case Ok(contracts) => QuantizeDown(contracts, spec.lotSize)
  }

  /** okxContractOrderSize. */
  function ContractOrderSize(quote: Decimal, price: Decimal, spec: InstrumentSpec): Result<Decimal, SizeError> {
    match LotsOfContracts(quote, price, spec)
    case Err(e) => Err(e)
    case Ok(size) => if Cmp(size, spec.minSize) < 0 then Err(BelowMinimum) else Ok(size)
  }

  ghost function Steps(k: int, step: real): real { k as real * step }

  ghost predicate IsMultiple(x: real, step: real) { exists k :: x == Steps(k, step) }

  /** Of the multiples of the increment, the one nearest to the value on the side of zero. */
  ghost predicate QuantizedDown(x: real, step: real, r: real) {
    && IsMultiple(r, step)
    && if x >= 0.0 then r <= x < r + step else r - step < x <= r
  }

  lemma QuantizeDownIsNearestMultiple(value: Decimal, increment: Decimal)
    ensures QuantizeDown(value, increment).Ok? <==> Value(increment) > 0.0
    ensures QuantizeDown(value, increment).Ok? ==>
      QuantizedDown(Value(value), Value(increment), Value(QuantizeDown(value, increment).value))
  {
    hide Value, Ten, Mul, QuoScale, QuantizedDown;
    SignOfValue(increment);
    if IsPositive(increment) {
      QuoScaleIsCorrectlyRounded(value, increment, 0, RoundDown);
      var units := QuoScale(value, increment, 0, RoundDown).value;
      MulIsExact(units, increment);
      ValueScaled(units);
      TenOfZero();
      UnitsScaled(Value(value), Value(increment), units.coefficient);
    }
  }

  lemma TenOfZero()
    ensures Ten(0) == 1.0
  {
  }

  lemma UnitsScaled(x: real, step: real, k: int)
    requires step > 0.0
    requires RoundedTo(RoundDown, ScaledQuotient(x, step, 0), k)
    ensures QuantizedDown(x, step, Steps(k, step))
  {
    var q := x / step;
    assert q * step == x;
    assert ScaledQuotient(x, step, 0) == q;
    var r := Steps(k, step);
    SignOfProduct(q, step, x);
    SignOfProduct(q - k as real, step, x - r);
    SignOfProduct(k as real + 1.0 - q, step, r + step - x);
    SignOfProduct(q - k as real + 1.0, step, x - r + step);
  }

  /** How far a size in contracts may miss the quote amount below and above. */
  ghost predicate WithinOneLot(n: real, quote: real, price: real, contract: real, lot: real) {
    var error := HalfUnit() * price * (1.0 + contract);
    && quote - error - lot * contract * price < n * contract * price
    && n * contract * price <= quote + error
  }

  lemma LotsAreWithinOneLot(quote: Decimal, price: Decimal, spec: InstrumentSpec)
    ensures LotsOfContracts(quote, price, spec).Ok? <==>
      Value(quote) > 0.0 && Value(price) > 0.0 && Value(spec.contractValue) > 0.0 && Value(spec.lotSize) > 0.0
    ensures LotsOfContracts(quote, price, spec).Ok? ==>
      var n := Value(LotsOfContracts(quote, price, spec).value);
      && IsMultiple(n, Value(spec.lotSize))
      && n >= 0.0
      && WithinOneLot(n, Value(quote), Value(price), Value(spec.contractValue), Value(spec.lotSize))
  {
    hide Value, Quo, QuantizeDown, HalfUnit, IsMultiple, WithinOneLot;
    SignOfValue(quote);
    SignOfValue(price);
    SignOfValue(spec.contractValue);
    if IsPositive(quote) && IsPositive(price) && IsPositive(spec.contractValue) {
      QuoIsWithinHalfUnit(quote, price);
      var base := Quo(quote, price).value;
      QuoIsWithinHalfUnit(base, spec.contractValue);
      var contracts := Quo(base, spec.contractValue).value;
      QuantizeDownIsNearestMultiple(contracts, spec.lotSize);
      if QuantizeDown(contracts, spec.lotSize).Ok? {
        var size := QuantizeDown(contracts, spec.lotSize).value;
        QuotientOfPositive(Value(quote), Value(price));
        QuotientOfPositive(Value(base), Value(spec.contractValue));
        MultipleOfPositive(Value(contracts), Value(spec.lotSize), Value(size));
        ErrorsAdd(Value(quote), Value(price), Value(spec.contractValue), Value(spec.lotSize), Value(base),
                  Value(quote) / Value(price), Value(base) / Value(spec.contractValue), Value(contracts), Value(size));
      }
    }
  }

  /**
   A computed order size is a multiple of the lot size, not below the minimum, and worth the quote
   amount up to the two division errors and less than one lot.
   */
  lemma OrderSizeIsWithinOneLot(quote: Decimal, price: Decimal, spec: InstrumentSpec)
    ensures ContractOrderSize(quote, price, spec).Ok? ==>
      var n := Value(ContractOrderSize(quote, price, spec).value);
      && IsMultiple(n, Value(spec.lotSize))
      && n >= 0.0 && n >= Value(spec.minSize)
      && WithinOneLot(n, Value(quote), Value(price), Value(spec.contractValue), Value(spec.lotSize))
  {
    hide Value, LotsOfContracts, IsMultiple, WithinOneLot, Cmp;
    LotsAreWithinOneLot(quote, price, spec);
    if LotsOfContracts(quote, price, spec).Ok? {
      CmpComparesValues(LotsOfContracts(quote, price, spec).value, spec.minSize);
    }
  }

  /**
   The size, and every refusal, in numbers: the stored quotient of amount and price, its stored quotient by
   the contract value, and of that the whole lots; a size at the minimum is accepted, one below it is not.
   */
  ghost predicate Sized(
    quote: real, price: real, contract: real, lot: real, minimum: real, result: Result<Decimal, SizeError>)
  {
    if quote <= 0.0 || price <= 0.0 || contract <= 0.0 then result == Err(InvalidAmount)
    else if lot <= 0.0 then result == Err(InvalidIncrement)
    else exists base, contracts, k ::
      && StoredQuotient(quote, price, base) && StoredQuotient(base, contract, contracts)
      && Steps(k, lot) <= contracts < Steps(k, lot) + lot
      && if Steps(k, lot) < minimum then result == Err(BelowMinimum)
         else result.Ok? && Value(result.value) == Steps(k, lot)
  }

  lemma OrderSizeByNumbers(quote: Decimal, price: Decimal, spec: InstrumentSpec)
    ensures Sized(Value(quote), Value(price), Value(spec.contractValue), Value(spec.lotSize), Value(spec.minSize),
                  ContractOrderSize(quote, price, spec))
  {
    hide Value, Quo, Cmp, StoredQuotient, HalfUnit, QuoScale;
    SignOfValue(quote);
    SignOfValue(price);
    SignOfValue(spec.contractValue);
    SignOfValue(spec.lotSize);
    if Value(quote) > 0.0 && Value(price) > 0.0 && Value(spec.contractValue) > 0.0 {
      QuoIsStored(quote, price);
      QuoIsWithinHalfUnit(quote, price);
      QuotientOfPositive(Value(quote), Value(price));
      var base := Quo(quote, price).value;
      QuoIsStored(base, spec.contractValue);
      QuoIsWithinHalfUnit(base, spec.contractValue);
      QuotientOfPositive(Value(base), Value(spec.contractValue));
      var contracts := Quo(base, spec.contractValue).value;
      QuantizeDownIsNearestMultiple(contracts, spec.lotSize);
      if Value(spec.lotSize) > 0.0 {
        var size := QuantizeDown(contracts, spec.lotSize).value;
        CmpComparesValues(size, spec.minSize);
        var k :| Value(size) == Steps(k, Value(spec.lotSize));
      }
    }
  }

  /**
   The minimum decides: an amount worth one lot more than the minimum is always accepted, and one
   worth less than the minimum never, up to the division errors.
   */
  lemma MinimumDecides(quote: Decimal, price: Decimal, spec: InstrumentSpec)
    requires Value(quote) > 0.0 && Value(price) > 0.0 && Value(spec.contractValue) > 0.0 && Value(spec.lotSize) > 0.0
    ensures var p, v, lot, minimum := Value(price), Value(spec.contractValue), Value(spec.lotSize), Value(spec.minSize);
      var error := HalfUnit() * p * (1.0 + v);
      && (minimum * v * p <= Value(quote) - error - lot * v * p ==> ContractOrderSize(quote, price, spec).Ok?)
      && (minimum * v * p > Value(quote) + error ==> ContractOrderSize(quote, price, spec) == Err(BelowMinimum))
  {
    hide Value, LotsOfContracts, IsMultiple, HalfUnit, Cmp;
    LotsAreWithinOneLot(quote, price, spec);
    var size := LotsOfContracts(quote, price, spec).value;
    CmpComparesValues(size, spec.minSize);
    WorthIsMonotone(Value(size), Value(spec.minSize), Value(spec.contractValue), Value(price));
  }

  lemma WorthIsMonotone(n: real, m: real, v: real, p: real)
    requires v > 0.0 && p > 0.0
    ensures m * v * p < n * v * p <==> m < n
    ensures n * v * p < m * v * p <==> n < m
  {
    Cancels(m, n, v);
    Cancels(n, m, v);
    Cancels(m * v, n * v, p);
    Cancels(n * v, m * v, p);
  }

  lemma QuotientOfPositive(a: real, b: real)
    requires a >= 0.0 && b > 0.0
    ensures a / b >= 0.0
    ensures a / b * b == a
  {
    SignOfProduct(a / b, b, a);
  }

  lemma MultipleOfPositive(x: real, step: real, r: real)
    requires step > 0.0 && x >= 0.0 && QuantizedDown(x, step, r)
    ensures r >= 0.0
  {
    var k :| r == Steps(k, step);
    if k < 0 {
      assert k as real <= -1.0;
      SignOfProduct(k as real + 1.0, step, r + step);
    }
  }

  lemma ErrorsAdd(quote: real, price: real, v: real, lot: real, base: real, b: real, c: real, contracts: real, n: real)
    requires price > 0.0 && v > 0.0
    requires b * price == quote && c * v == base
    requires b - HalfUnit() <= base <= b + HalfUnit()
    requires c - HalfUnit() <= contracts <= c + HalfUnit()
    requires n <= contracts < n + lot
    ensures WithinOneLot(n, quote, price, v, lot)
  {
    hide HalfUnit;
    var worth := n * v;
    WorthInBase(n, c, HalfUnit(), lot, v, base, worth);
    WorthInQuote(b, HalfUnit(), v, lot, price, quote, worth);
  }

  /** From contracts to base units: one division error and one lot. */
  lemma WorthInBase(n: real, c: real, e: real, lot: real, v: real, base: real, worth: real)
    requires v > 0.0 && worth == n * v && base == c * v
    requires c - e < n + lot && n <= c + e
    ensures worth <= base + e * v
    ensures base - e * v < worth + lot * v
  {
    var above, below := c + e - n, n + lot - c + e;
    SignedScale(above, v);
    SignedScale(below, v);
    assert above * v == base + e * v - worth;
    assert below * v == worth + lot * v - base + e * v;
    assert below * v > 0.0;
  }

  /** From base units to the quote currency: the other division error. */
  lemma WorthInQuote(b: real, e: real, v: real, lot: real, p: real, quote: real, worth: real)
    requires p > 0.0 && b * p == quote
    requires worth <= b + e + e * v
    requires b - e - e * v < worth + lot * v
    ensures worth * p <= quote + e * p * (1.0 + v)
    ensures quote - e * p * (1.0 + v) - lot * v * p < worth * p
  {
    SignedScale(b + e + e * v - worth, p);
    SignedScale(worth + lot * v + e * v - b + e, p);
    Expanded(b, e, v, lot, p, worth);
  }

  lemma SignedScale(x: real, t: real)
    requires t > 0.0
    ensures x >= 0.0 ==> x * t >= 0.0
    ensures x > 0.0 ==> x * t > 0.0
  {
  }

  lemma Expanded(b: real, e: real, v: real, lot: real, p: real, worth: real)
    ensures (b + e + e * v - worth) * p == b * p + e * p * (1.0 + v) - worth * p
    ensures (worth + lot * v + e * v - b + e) * p == worth * p + lot * v * p + e * p * (1.0 + v) - b * p
  {
  }
}
