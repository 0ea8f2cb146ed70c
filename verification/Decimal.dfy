/** Exact base-10 numbers of internal/contracts/decimal.go: arithmetic, rounding and the canonical form. */
module Decimals {
  import opened Wrappers

  const MAX_DIGITS := 10_000
  const MAX_SCALE := 10_000
  const QUO_SCALE := 28

  /** coefficient / 10^scale; a zero remembers a minus sign. */
  datatype Decimal = Decimal(coefficient: int, scale: nat, negativeZero: bool)

  datatype RoundingMode = RoundDown | RoundHalfUp | RoundHalfEven

  datatype DecimalError = Empty | Invalid | TooLarge | DivisionByZero

  const ZERO := Decimal(0, 0, false)

  /** Only a zero carries the flag. */
  predicate Constructible(d: Decimal) { d.negativeZero ==> d.coefficient == 0 }

  function Pow10(n: nat): (p: int)
    ensures p >= 1
  {
    if n == 0 then 1 else 10 * Pow10(n - 1)
  }

  ghost function Ten(n: nat): (p: real)
    ensures p >= 1.0
  {
    if n == 0 then 1.0 else 10.0 * Ten(n - 1)
  }

  /** The number a decimal stands for. */
  ghost function Value(d: Decimal): real { d.coefficient as real / Ten(d.scale) }

  // ---- powers of ten ----

  lemma {:induction false} TenAdds(a: nat, b: nat)
    ensures Ten(a + b) == Ten(a) * Ten(b)
  {
    if a > 0 {
      TenAdds(a - 1, b);
      ProductsRegroup(10.0, Ten(a - 1), Ten(b));
    }
  }

  lemma ProductsRegroup(x: real, y: real, z: real)
    ensures (x * y) * z == x * (y * z)
  {
  }

  lemma {:induction false} PowIsTen(n: nat)
    ensures Pow10(n) as real == Ten(n)
  {
    if n > 0 {
      PowIsTen(n - 1);
    }
  }

  lemma {:induction false} ProductAsReal(a: int, b: nat)
    ensures (a * b) as real == a as real * b as real
    decreases b
  {
    if b > 0 {
      ProductAsReal(a, b - 1);
      assert a * b == a * (b - 1) + a;
      assert b as real == (b - 1) as real + 1.0;
    }
  }

  lemma ProductReal(a: int, b: int)
    ensures (a * b) as real == a as real * b as real
  {
    if b >= 0 {
      ProductAsReal(a, b);
    } else {
      ProductAsReal(a, -b);
      assert a * b == -(a * -b);
    }
  }

  lemma ScaledUp(c: int, n: nat)
    ensures (c * Pow10(n)) as real == c as real * Ten(n)
  {
    ProductReal(c, Pow10(n));
    PowIsTen(n);
  }

  /** A number is determined by its value and scale. */
  lemma ValueScaled(d: Decimal)
    ensures Value(d) * Ten(d.scale) == d.coefficient as real
  {
  }

  lemma Cancels(x: real, y: real, t: real)
    requires t > 0.0
    ensures x * t == y * t <==> x == y
    ensures x * t < y * t <==> x < y
  {
    if x < y {
      assert (y - x) * t > 0.0;
    } else if y < x {
      assert (x - y) * t > 0.0;
    }
  }

  // ---- ring operations ----

  /** The coefficient a decimal has at a larger scale. */
  function Rescaled(d: Decimal, scale: nat): int
    requires d.scale <= scale
  {
    d.coefficient * Pow10(scale - d.scale)
  }

  lemma RescaledKeepsValue(d: Decimal, scale: nat)
    requires d.scale <= scale
    ensures Rescaled(d, scale) as real == Value(d) * Ten(scale)
  {
    hide Value, Ten, Pow10;
    ScaledUp(d.coefficient, scale - d.scale);
    TenAdds(d.scale, scale - d.scale);
    ValueScaled(d);
    Regrouped(Value(d), Ten(d.scale), Ten(scale - d.scale), d.coefficient as real);
  }

  lemma Regrouped(v: real, s: real, t: real, c: real)
    requires v * s == c
    ensures v * (s * t) == c * t
  {
  }

  /** Both coefficients at the larger of the two scales. */
  function AlignDecimals(left: Decimal, right: Decimal): (r: (int, int, nat)) {
    var scale := if right.scale > left.scale then right.scale else left.scale;
    (Rescaled(left, scale), Rescaled(right, scale), scale)
  }

  function Add(left: Decimal, right: Decimal): Decimal {
    var (a, b, scale) := AlignDecimals(left, right);
    Decimal(a + b, scale, false)
  }

  function Neg(d: Decimal): Decimal {
    if d.coefficient == 0 then Decimal(0, d.scale, !d.negativeZero) else Decimal(-d.coefficient, d.scale, false)
  }

  function Sub(left: Decimal, right: Decimal): Decimal { Add(left, Neg(right)) }

  function Mul(left: Decimal, right: Decimal): Decimal {
    Decimal(left.coefficient * right.coefficient, left.scale + right.scale, false)
  }

  function AbsInt(n: int): nat { if n < 0 then -n else n }

  function Cmp(left: Decimal, right: Decimal): int {
    var (a, b, _) := AlignDecimals(left, right);
    if a < b then -1 else if a > b then 1 else 0
  }

  predicate IsZero(d: Decimal) { d.coefficient == 0 }

  predicate IsPositive(d: Decimal) { d.coefficient > 0 }

  lemma AddIsExact(left: Decimal, right: Decimal)
    ensures Value(Add(left, right)) == Value(left) + Value(right)
    ensures Add(left, right).scale == (if left.scale < right.scale then right.scale else left.scale)
    ensures !Add(left, right).negativeZero
  {
    hide Value, Ten, Rescaled;
    var scale := Add(left, right).scale;
    RescaledKeepsValue(left, scale);
    RescaledKeepsValue(right, scale);
    ValueScaled(Add(left, right));
    Cancels(Value(Add(left, right)), Value(left) + Value(right), Ten(scale));
  }

  lemma NegIsExact(d: Decimal)
    ensures Value(Neg(d)) == -Value(d) && Neg(d).scale == d.scale
    ensures Neg(Neg(d)) == d <==> Constructible(d)
  {
    hide Value, Ten;
    ValueScaled(d);
    ValueScaled(Neg(d));
    Cancels(Value(Neg(d)), -Value(d), Ten(d.scale));
  }

  lemma SubIsExact(left: Decimal, right: Decimal)
    ensures Value(Sub(left, right)) == Value(left) - Value(right)
    ensures Sub(left, right).scale == (if left.scale < right.scale then right.scale else left.scale)
    ensures !Sub(left, right).negativeZero
  {
    AddIsExact(left, Neg(right));
    NegIsExact(right);
  }

  lemma MulIsExact(left: Decimal, right: Decimal)
    ensures Value(Mul(left, right)) == Value(left) * Value(right)
    ensures Mul(left, right).scale == left.scale + right.scale && !Mul(left, right).negativeZero
  {
    hide Value, Ten;
    ProductReal(left.coefficient, right.coefficient);
    TenAdds(left.scale, right.scale);
    ValueScaled(left);
    ValueScaled(right);
    ValueScaled(Mul(left, right));
    FourFactors(Value(left), Ten(left.scale), Value(right), Ten(right.scale));
    Cancels(Value(Mul(left, right)), Value(left) * Value(right), Ten(left.scale + right.scale));
  }

  lemma FourFactors(a: real, s: real, b: real, t: real)
    ensures (a * s) * (b * t) == (a * b) * (s * t)
  {
  }

  /** Comparing two decimals compares the numbers, whatever their scales and signs of zero. */
  lemma CmpComparesValues(left: Decimal, right: Decimal)
    ensures Cmp(left, right) < 0 <==> Value(left) < Value(right)
    ensures Cmp(left, right) == 0 <==> Value(left) == Value(right)
    ensures Cmp(left, right) > 0 <==> Value(left) > Value(right)
    ensures -1 <= Cmp(left, right) <= 1
  {
    hide Value, Ten, Rescaled;
    var (a, b, scale) := AlignDecimals(left, right);
    RescaledKeepsValue(left, scale);
    RescaledKeepsValue(right, scale);
    Cancels(Value(left), Value(right), Ten(scale));
    Cancels(Value(right), Value(left), Ten(scale));
  }

  lemma SignOfValue(d: Decimal)
    ensures IsZero(d) <==> Value(d) == 0.0
    ensures IsPositive(d) <==> Value(d) > 0.0
    ensures d.coefficient < 0 <==> Value(d) < 0.0
  {
    hide Value, Ten;
    ValueScaled(d);
    Cancels(Value(d), 0.0, Ten(d.scale));
    Cancels(0.0, Value(d), Ten(d.scale));
  }

  // ---- division ----

  /** big.Int.QuoRem: the quotient truncates toward zero. */
  function QuoRem(n: int, d: int): (r: (int, int))
    requires d > 0
    ensures n == r.0 * d + r.1
    ensures AbsInt(r.1) < d
    ensures r.1 > 0 ==> n > 0
    ensures r.1 < 0 ==> n < 0
    ensures n >= 0 ==> r.0 >= 0
    ensures n <= 0 ==> r.0 <= 0
  {
    if n >= 0 then
      DivisionOfNat(n, d);
      (n / d, n % d)
    else
      DivisionOfNat(-n, d);
      (-(-n / d), -(-n % d))
  }

  lemma DivisionOfNat(n: nat, d: int)
    requires d > 0
    ensures n / d >= 0 && n == n / d * d + n % d
  {
  }

  /** Whether the quotient moves away from zero, given the remainder it leaves. */
  predicate RoundsAway(mode: RoundingMode, quotient: int, remainder: int, denominator: int) {
    && remainder != 0 && mode != RoundDown
    && (var twice := 2 * AbsInt(remainder);
        twice > denominator
        || (twice == denominator && (mode == RoundHalfUp || AbsInt(quotient) % 2 == 1)))
  }

  function RoundedQuotient(mode: RoundingMode, numerator: int, denominator: int): int
    requires denominator > 0
  {
    var (quotient, remainder) := QuoRem(numerator, denominator);
    if !RoundsAway(mode, quotient, remainder, denominator) then quotient
    else if numerator < 0 then quotient - 1
    else quotient + 1
  }

  /** The fraction whose quotient is rounded, with a positive denominator. */
  function Fraction(d: Decimal, other: Decimal, scale: nat): (r: (int, int))
    requires !IsZero(other)
    ensures r.1 > 0
  {
    var exponent := other.scale - d.scale + scale;
    var numerator := if exponent >= 0 then d.coefficient * Pow10(exponent) else d.coefficient;
    var denominator := if exponent >= 0 then other.coefficient else other.coefficient * Pow10(-exponent);
    NonZeroProduct(other.coefficient, if exponent >= 0 then 1 else Pow10(-exponent));
    if denominator < 0 then (-numerator, -denominator) else (numerator, denominator)
  }

  lemma NonZeroProduct(a: int, b: int)
    requires a != 0 && b >= 1
    ensures a * b != 0
  {
    if a > 0 {
      assert a * b > 0;
    } else {
      assert -a * b > 0;
    }
  }

  function QuoScale(d: Decimal, other: Decimal, scale: int, mode: RoundingMode): Result<Decimal, DecimalError> {
    if IsZero(other) then Err(DivisionByZero)
    else if scale < 0 || scale > MAX_SCALE then Err(TooLarge)
    else
      var (numerator, denominator) := Fraction(d, other, scale);
      var quotient := RoundedQuotient(mode, numerator, denominator);
      Ok(Decimal(quotient, scale, quotient == 0 && numerator < 0))
  }

  /** q is the number x rounded to an integer. */
  ghost predicate RoundedTo(mode: RoundingMode, x: real, q: int) {
    match mode
    case RoundDown =>
      if x >= 0.0 then q as real <= x < q as real + 1.0 else q as real - 1.0 < x <= q as real
    case RoundHalfUp =>
      && q as real - 0.5 <= x <= q as real + 0.5
      && (x == q as real - 0.5 ==> x > 0.0)
      && (x == q as real + 0.5 ==> x < 0.0)
    case RoundHalfEven =>
      && q as real - 0.5 <= x <= q as real + 0.5
      && (x == q as real - 0.5 || x == q as real + 0.5 ==> q % 2 == 0)
  }

  lemma RoundingIsUnique(mode: RoundingMode, x: real, q: int, r: int)
    requires RoundedTo(mode, x, q) && RoundedTo(mode, x, r)
    ensures q == r
  {
    if q < r {
      OnlyOneRounding(mode, x, q, r);
    } else if r < q {
      OnlyOneRounding(mode, x, r, q);
    }
  }

  lemma OnlyOneRounding(mode: RoundingMode, x: real, q: int, r: int)
    requires RoundedTo(mode, x, q) && RoundedTo(mode, x, r)
    requires q <= r
    ensures q == r
  {
    StepsApart(q, r);
  }

  lemma StepsApart(q: int, r: int)
    requires q <= r
    ensures r == q || r as real == q as real + 1.0 || r as real >= q as real + 2.0
    ensures r as real == q as real + 1.0 ==> r == q + 1
  {
    if r > q {
      assert r == q + 1 || r >= q + 2;
    }
  }

  /** The exact quotient, in units of the last place of a scale. */
  ghost function ScaledQuotient(v: real, w: real, scale: nat): real
    requires w != 0.0
  {
    v / w * Ten(scale)
  }

  /** The fraction to be rounded is the exact quotient, at the target scale. */
  lemma FractionIsQuotient(d: Decimal, other: Decimal, scale: nat)
    requires !IsZero(other)
    ensures Value(other) != 0.0
    ensures var (n, m) := Fraction(d, other, scale); ScaledQuotient(Value(d), Value(other), scale) * m as real == n as real
  {
    hide Value, Ten, Pow10;
    SignOfValue(other);
    ValueScaled(d);
    ValueScaled(other);
    var v, w := Value(d), Value(other);
    var exponent := other.scale - d.scale + scale;
    TenAdds(other.scale, scale);
    if exponent >= 0 {
      TenAdds(d.scale, exponent);
      ScaledUp(d.coefficient, exponent);
      QuotientScaled(v, w, Ten(scale), Ten(other.scale), Ten(d.scale), Ten(exponent), 1.0);
    } else {
      TenAdds(other.scale + scale, -exponent);
      ScaledUp(other.coefficient, -exponent);
      QuotientScaled(v, w, Ten(scale), Ten(other.scale), Ten(d.scale), 1.0, Ten(-exponent));
    }
  }

  /** Both sides of the fraction, with their powers of ten: v·dt·up over w·ot·down. */
  lemma QuotientScaled(v: real, w: real, st: real, ot: real, dt: real, up: real, down: real)
    requires w != 0.0
    requires ot * st * down == dt * up
    ensures v / w * st * (w * ot * down) == v * dt * up
  {
    var x := v / w;
    assert x * w == v;
    calc {
      x * st * (w * ot * down);
      { Shuffle(x, st, w, ot, down); }
      (x * w) * (ot * st * down);
      v * (dt * up);
      { ProductsRegroup(v, dt, up); }
      v * dt * up;
    }
  }

  lemma Shuffle(x: real, s: real, w: real, o: real, d: real)
    ensures x * s * (w * o * d) == (x * w) * (o * s * d)
  {
    assert x * s * (w * o * d) == (x * w) * (s * (o * d));
  }

  /** Where a remainder lies on the unit interval around the quotient. */
  lemma RemainderPlace(x: real, q: real, m: real, r: real)
    requires m > 0.0
    requires x * m == q * m + r
    ensures r > 0.0 <==> x > q
    ensures r < 0.0 <==> x < q
    ensures r < m <==> x < q + 1.0
    ensures r > -m <==> x > q - 1.0
    ensures 2.0 * r < m <==> x < q + 0.5
    ensures 2.0 * r > m <==> x > q + 0.5
    ensures 2.0 * r > -m <==> x > q - 0.5
    ensures 2.0 * r < -m <==> x < q - 0.5
  {
    SignOfProduct(x - q, m, r);
    SignOfProduct(x - q - 1.0, m, r - m);
    SignOfProduct(x - q + 1.0, m, r + m);
    SignOfProduct(x - q - 0.5, m, r - 0.5 * m);
    SignOfProduct(x - q + 0.5, m, r + 0.5 * m);
  }

  lemma SignOfProduct(e: real, m: real, r: real)
    requires m > 0.0 && e * m == r
    ensures r > 0.0 <==> e > 0.0
    ensures r < 0.0 <==> e < 0.0
  {
    if e > 0.0 {
      assert e * m > 0.0;
    } else if e < 0.0 {
      assert -e * m > 0.0;
    }
  }

  /** The integer division with its rounding step rounds the exact fraction correctly. */
  lemma QuotientIsRounded(mode: RoundingMode, n: int, m: int, x: real)
    requires m > 0 && x * m as real == n as real
    ensures RoundedTo(mode, x, RoundedQuotient(mode, n, m))
    ensures n < 0 <==> x < 0.0
  {
    var (q, r) := QuoRem(n, m);
    ProductReal(q, m);
    assert x * m as real == q as real * m as real + r as real;
    Cancels(x, 0.0, m as real);
    Cancels(0.0, x, m as real);
    RemainderPlace(x, q as real, m as real, r as real);
    RoundStep(mode, n, m, x, q, r);
  }

  lemma RoundStep(mode: RoundingMode, n: int, m: int, x: real, q: int, r: int)
    requires m > 0 && (q, r) == QuoRem(n, m)
    requires n < 0 <==> x < 0.0
    requires n > 0 <==> x > 0.0
    requires r > 0 <==> x > q as real
    requires r < 0 <==> x < q as real
    requires r < m <==> x < q as real + 1.0
    requires r > -m <==> x > q as real - 1.0
    requires 2 * r < m <==> x < q as real + 0.5
    requires 2 * r > m <==> x > q as real + 0.5
    requires 2 * r > -m <==> x > q as real - 0.5
    requires 2 * r < -m <==> x < q as real - 0.5
    ensures RoundedTo(mode, x, RoundedQuotient(mode, n, m))
  {
    hide QuoRem;
    match mode
    case RoundDown =>
    case RoundHalfUp =>
    case RoundHalfEven =>
  }

  /**
   QuoScale fails exactly on a zero divisor or an unsupported scale; otherwise its coefficient is the
   exact quotient at that scale, correctly rounded, and a rounded-off negative stays a negative zero.
   */
  lemma QuoScaleIsCorrectlyRounded(d: Decimal, other: Decimal, scale: int, mode: RoundingMode)
    ensures QuoScale(d, other, scale, mode).Ok? <==> Value(other) != 0.0 && 0 <= scale <= MAX_SCALE
    ensures QuoScale(d, other, scale, mode).Ok? ==>
      var r, x := QuoScale(d, other, scale, mode).value, ScaledQuotient(Value(d), Value(other), scale);
      && r.scale == scale
      && RoundedTo(mode, x, r.coefficient)
      && r.negativeZero == (r.coefficient == 0 && x < 0.0)
  {
    hide Value, Ten, RoundedTo, RoundedQuotient, Fraction, IsZero, ScaledQuotient;
    SignOfValue(other);
    if !IsZero(other) && 0 <= scale <= MAX_SCALE {
      FractionIsQuotient(d, other, scale);
      var (n, m) := Fraction(d, other, scale);
      QuotientIsRounded(mode, n, m, ScaledQuotient(Value(d), Value(other), scale));
    }
  }

  /** The result depends on the operands' values alone. */
  lemma QuoScaleIgnoresScales(d: Decimal, other: Decimal, d': Decimal, other': Decimal, scale: int, mode: RoundingMode)
    requires Value(d) == Value(d') && Value(other) == Value(other')
    ensures QuoScale(d, other, scale, mode) == QuoScale(d', other', scale, mode)
  {
    hide Value, Ten, RoundedTo, RoundedQuotient, Fraction, ScaledQuotient;
    SignOfValue(other);
    SignOfValue(other');
    QuoScaleIsCorrectlyRounded(d, other, scale, mode);
    QuoScaleIsCorrectlyRounded(d', other', scale, mode);
    if QuoScale(d, other, scale, mode).Ok? {
      hide QuoScale;
      RoundingIsUnique(mode, ScaledQuotient(Value(d), Value(other), scale),
                       QuoScale(d, other, scale, mode).value.coefficient, QuoScale(d', other', scale, mode).value.coefficient);
    }
  }

  // ---- canonical form ----

  /** A non-zero coefficient without trailing fractional zeroes. */
  function Stripped(coefficient: int, scale: nat): (d: Decimal)
    requires coefficient != 0
    ensures d.coefficient != 0 && !d.negativeZero && d.scale <= scale
    ensures d.scale == 0 || d.coefficient % 10 != 0
    decreases scale
  {
    if scale > 0 && coefficient % 10 == 0 then Stripped(coefficient / 10, scale - 1)
    else Decimal(coefficient, scale, false)
  }

  function Normalized(d: Decimal): Decimal {
    if d.coefficient == 0 then ZERO else Stripped(d.coefficient, d.scale)
  }

  method Normalize(d: Decimal) returns (r: Decimal)
    ensures r == Normalized(d)
  {
    if d.coefficient == 0 {
      return ZERO;
    }
    var coefficient, scale := d.coefficient, d.scale;
    while scale > 0
      invariant coefficient != 0
      invariant Stripped(coefficient, scale) == Normalized(d)
    {
      var (quotient, remainder) := QuoRem(coefficient, 10);
      DivisibleByTen(coefficient, quotient, remainder);
      if remainder != 0 {
        break;
      }
      coefficient, scale := quotient, scale - 1;
    }
    return Decimal(coefficient, scale, false);
  }

  lemma DivisibleByTen(c: int, quotient: int, remainder: int)
    requires c == quotient * 10 + remainder && AbsInt(remainder) < 10
    ensures remainder == 0 <==> c % 10 == 0
    ensures remainder == 0 ==> quotient == c / 10
  {
  }

  lemma {:induction false} StrippedKeepsValue(coefficient: int, scale: nat)
    requires coefficient != 0
    ensures Value(Stripped(coefficient, scale)) == coefficient as real / Ten(scale)
    decreases scale
  {
    if scale > 0 && coefficient % 10 == 0 {
      var tenth := coefficient / 10;
      assert coefficient == 10 * tenth;
      StrippedKeepsValue(tenth, scale - 1);
      assert coefficient as real == 10.0 * tenth as real;
      TenthOf(tenth as real, Ten(scale - 1));
    }
  }

  lemma TenthOf(c: real, t: real)
    requires t >= 1.0
    ensures (10.0 * c) / (10.0 * t) == c / t
  {
    assert (c / t) * t == c;
    assert (10.0 * t) * (c / t) == 10.0 * c;
  }

  lemma NormalizeKeepsValue(d: Decimal)
    ensures Value(Normalized(d)) == Value(d)
  {
    if d.coefficient != 0 {
      StrippedKeepsValue(d.coefficient, d.scale);
    }
  }

  /** Equal numbers have one normal form, and different numbers different ones. */
  lemma NormalFormIsCanonical(d: Decimal, e: Decimal)
    ensures Normalized(d) == Normalized(e) <==> Value(d) == Value(e)
  {
    NormalizeKeepsValue(d);
    NormalizeKeepsValue(e);
    if Value(d) == Value(e) {
      SignOfValue(d);
      SignOfValue(e);
      var p, q := Normalized(d), Normalized(e);
      if d.coefficient != 0 {
        if p.scale <= q.scale {
          SameNormalForm(p, q);
        } else {
          SameNormalForm(q, p);
        }
      }
    }
  }

  lemma SameNormalForm(p: Decimal, q: Decimal)
    requires p.scale <= q.scale && Value(p) == Value(q)
    requires q.scale == 0 || q.coefficient % 10 != 0
    requires !p.negativeZero && !q.negativeZero
    ensures p == q
  {
    var up := Rescaled(p, q.scale);
    RescaledKeepsValue(p, q.scale);
    ValueScaled(q);
    assert up == q.coefficient;
    if p.scale < q.scale {
      TrailingZero(p, q.scale);
    }
  }

  lemma TrailingZero(p: Decimal, scale: nat)
    requires p.scale < scale
    ensures Rescaled(p, scale) % 10 == 0
  {
    var rest := p.coefficient * Pow10(scale - p.scale - 1);
    assert Rescaled(p, scale) == 10 * rest;
  }

  /** Division for money: 28 places, ties to even, then the normal form. */
  function Quo(d: Decimal, other: Decimal): Result<Decimal, DecimalError> {
    match QuoScale(d, other, QUO_SCALE, RoundHalfEven)
    case Err(e) => Err(e)
    case Ok(r) => Ok(Normalized(r))
  }

  /** Half a unit in the 28th place. */
  ghost function HalfUnit(): real { 0.5 / Ten(QUO_SCALE) }

  /** The quotient is within half a unit of the exact one, keeps its sign, and only a zero divisor fails. */
  lemma QuoIsWithinHalfUnit(d: Decimal, other: Decimal)
    ensures Quo(d, other).Ok? <==> Value(other) != 0.0
    ensures Quo(d, other).Ok? ==>
      var r, exact := Value(Quo(d, other).value), Value(d) / Value(other);
      && exact - HalfUnit() <= r <= exact + HalfUnit()
      && (exact >= 0.0 ==> r >= 0.0)
  {
    hide Value, Ten, RoundedTo, QuoScale, Normalized;
    QuoScaleIsCorrectlyRounded(d, other, QUO_SCALE, RoundHalfEven);
    if Quo(d, other).Ok? {
      var r := QuoScale(d, other, QUO_SCALE, RoundHalfEven).value;
      NormalizeKeepsValue(r);
      ValueScaled(r);
      RoundedWithin(Value(d) / Value(other), Ten(QUO_SCALE), ScaledQuotient(Value(d), Value(other), QUO_SCALE),
                    r.coefficient, Value(r));
    }
  }

  /** The exact quotient, rounded half to even in the 28th place. */
  ghost predicate StoredQuotient(v: real, w: real, r: real)
    requires w != 0.0
  {
    exists q :: RoundedTo(RoundHalfEven, ScaledQuotient(v, w, 28), q) && r * Ten(28) == q as real
  }

  lemma ZeroDivisor(d: Decimal, other: Decimal)
    ensures Value(other) == 0.0 ==> Quo(d, other) == Err(DivisionByZero)
  {
    SignOfValue(other);
  }

  /** Quo stores exactly that, in normal form, and only a zero divisor fails. */
  lemma QuoIsStored(d: Decimal, other: Decimal)
    ensures Quo(d, other) == Err(DivisionByZero) <==> Value(other) == 0.0
    ensures Value(other) != 0.0 ==>
      && Quo(d, other).Ok? && StoredQuotient(Value(d), Value(other), Value(Quo(d, other).value))
      && Normalized(Quo(d, other).value) == Quo(d, other).value
  {
    hide Value, Ten, RoundedTo, Normalized, QuoScale, ScaledQuotient, IsZero;
    ZeroDivisor(d, other);
    QuoScaleIsCorrectlyRounded(d, other, QUO_SCALE, RoundHalfEven);
    if Value(other) != 0.0 {
      var r := QuoScale(d, other, QUO_SCALE, RoundHalfEven).value;
      NormalizeKeepsValue(r);
      NormalFormIsCanonical(Normalized(r), r);
      ValueScaled(r);
    }
  }

  lemma RoundedWithin(exact: real, t: real, x: real, q: int, v: real)
    requires t >= 1.0 && x == exact * t && v * t == q as real
    requires RoundedTo(RoundHalfEven, x, q)
    ensures exact - 0.5 / t <= v <= exact + 0.5 / t
    ensures exact >= 0.0 ==> v >= 0.0
  {
    var h := 0.5 / t;
    assert h * t == 0.5;
    SignOfProduct(v - exact + h, t, q as real - exact * t + 0.5);
    SignOfProduct(exact + h - v, t, exact * t + 0.5 - q as real);
    if exact >= 0.0 {
      assert exact * t >= 0.0;
      assert q >= 0;
      SignOfProduct(v, t, q as real);
    }
  }
}
