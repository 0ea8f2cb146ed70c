/** Reading and writing decimals: ParseDecimal and String of internal/contracts/decimal.go. */
module DecimalText {
  import opened Wrappers
  import opened Decimals

  /** strings.TrimSpace removes the Unicode white space. */
  predicate IsSpace(c: char) {
    || '\t' <= c <= '\r' || c == ' '
    || c == '\U{0085}' || c == '\U{00A0}' || c == '\U{1680}'
    || '\U{2000}' <= c <= '\U{200A}'
    || c == '\U{2028}' || c == '\U{2029}' || c == '\U{202F}' || c == '\U{205F}' || c == '\U{3000}'
  }

  /** The 25 white space characters of Unicode. */
  lemma SpacesAreListed(c: char)
    ensures IsSpace(c) <==>
      c in "\U{0009}\U{000A}\U{000B}\U{000C}\U{000D}\U{0020}\U{0085}\U{00A0}\U{1680}\U{2000}\U{2001}\U{2002}\U{2003}"
           + "\U{2004}\U{2005}\U{2006}\U{2007}\U{2008}\U{2009}\U{200A}\U{2028}\U{2029}\U{202F}\U{205F}\U{3000}"
  {
  }

  predicate IsDigit(c: char) { '0' <= c <= '9' }

  predicate AllDigits(s: string) { forall i :: 0 <= i < |s| ==> IsDigit(s[i]) }

  predicate AllSpace(s: string) { forall i :: 0 <= i < |s| ==> IsSpace(s[i]) }

  function TrimLeft(s: string): string {
    if s != "" && IsSpace(s[0]) then TrimLeft(s[1..]) else s
  }

  function TrimRight(s: string): string {
    if s != "" && IsSpace(s[|s| - 1]) then TrimRight(s[..|s| - 1]) else s
  }

  function TrimZeroes(s: string): string {
    if s != "" && s[0] == '0' then TrimZeroes(s[1..]) else s
  }

  /** The first position of one of the characters, or -1. */
  function IndexAny(s: string, chars: set<char>): (r: int)
    ensures -1 <= r < |s|
    ensures r >= 0 ==> s[r] in chars
    ensures forall i :: 0 <= i < (if r < 0 then |s| else r) ==> s[i] !in chars
  {
    if s == "" then -1
    else if s[0] in chars then 0
    else
      var rest := IndexAny(s[1..], chars);
      assert forall i :: 0 < i < |s| ==> s[i] == s[1..][i - 1];
      if rest < 0 then -1 else rest + 1
  }

  function Count(s: string, c: char): nat {
    if s == "" then 0 else (if s[0] == c then 1 else 0) + Count(s[1..], c)
  }

  function Zeroes(n: nat): (s: string)
    ensures |s| == n && AllDigits(s)
  {
    seq(n, i => '0')
  }

  function DigitOf(c: char): (d: int)
    requires IsDigit(c)
    ensures 0 <= d <= 9
  {
    c as int - '0' as int
  }

  function DigitChar(d: int): (c: char)
    requires 0 <= d <= 9
    ensures IsDigit(c) && DigitOf(c) == d
  {
    ('0' as int + d) as char
  }

  /** The number a digit string denotes. */
  function NatOf(s: string): nat
    requires AllDigits(s)
  {
    if s == "" then 0 else 10 * NatOf(s[..|s| - 1]) + DigitOf(s[|s| - 1])
  }

  /** big.Int.String of a natural number. */
  function DigitsOf(n: nat): (s: string)
    ensures |s| >= 1 && AllDigits(s)
  {
    if n < 10 then [DigitChar(n)] else DigitsOf(n / 10) + [DigitChar(n % 10)]
  }

  function Signed(negative: bool, n: nat): int { if negative then -(n as int) else n }

  /** strconv.ParseInt, restricted to the exponents a decimal supports. */
  function ParseExponent(s: string): Option<int> {
    var negative := s != "" && s[0] == '-';
    var digits := if s != "" && (s[0] == '+' || s[0] == '-') then s[1..] else s;
    if digits == "" || !AllDigits(digits) then None
    else
      var n := Signed(negative, NatOf(digits));
      if n > MAX_SCALE || n < -MAX_SCALE then None else Some(n)
  }

  /** Mantissa and exponent of an unsigned numeral. */
  function SplitExponent(text: string): Result<(string, int), DecimalError> {
    var index := IndexAny(text, {'e', 'E'});
    if index < 0 then Ok((text, 0))
    else
      var exponent := text[index + 1..];
      if IndexAny(exponent, {'e', 'E'}) >= 0 then Err(Invalid)
      else if exponent == "" then Err(Invalid)
      else match ParseExponent(exponent)
        case None => Err(TooLarge)
        case Some(n) => Ok((text[..index], n))
  }

  /** The decimal of a mantissa's digits, once their limits are checked. */
  function Assemble(negative: bool, digits: string, scale: int): Result<Decimal, DecimalError>
    requires AllDigits(digits)
  {
    var zeros := if scale < 0 then -scale else 0;
    if |digits| + zeros > MAX_DIGITS || scale > MAX_SCALE then Err(TooLarge)
    else
      var trimmed := TrimZeroes(digits + Zeroes(zeros));
      var placed := if scale < 0 then 0 else scale;
      TrimZeroesKeepsDigits(digits + Zeroes(zeros));
      if trimmed == "" then Ok(Decimal(0, placed, negative))
      else Ok(Decimal(Signed(negative, NatOf(trimmed)), placed, false))
  }

  function ParseMantissa(negative: bool, mantissa: string, exponent: int): Result<Decimal, DecimalError> {
    if mantissa == "" || Count(mantissa, '.') > 1 then Err(Invalid)
    else
      var index := IndexAny(mantissa, {'.'});
      var whole := if index >= 0 then mantissa[..index] else mantissa;
      var fraction := if index >= 0 then mantissa[index + 1..] else "";
      if (whole == "" && fraction == "") || !AllDigits(whole + fraction) then Err(Invalid)
      else Assemble(negative, whole + fraction, |fraction| - exponent)
  }

  function ParseDecimal(original: string): Result<Decimal, DecimalError> { ParseTrimmed(TrimRight(TrimLeft(original))) }

  function ParseTrimmed(text: string): Result<Decimal, DecimalError> {
    if text == "" then Err(Empty)
    else if |text| > MAX_DIGITS + 32 then Err(TooLarge)
    else
      var signed := text[0] == '+' || text[0] == '-';
      var unsigned := if signed then text[1..] else text;
      if unsigned == "" then Err(Invalid)
      else match SplitExponent(unsigned)
        case Err(e) => Err(e)
        case Ok(parts) => ParseMantissa(text[0] == '-', parts.0, parts.1)
  }

  /** The loop of asciiDigits. */
  method AsciiDigits(text: string) returns (ok: bool)
    ensures ok <==> AllDigits(text)
  {
    var i := 0;
    while i < |text|
      invariant 0 <= i <= |text|
      invariant AllDigits(text[..i])
    {
      if !IsDigit(text[i]) {
        return false;
      }
      i := i + 1;
    }
    assert text[..i] == text;
    return true;
  }

  /** String. */
  function Text(d: Decimal): string {
    var digits := DigitsOf(AbsInt(d.coefficient));
    var value :=
      if d.scale == 0 then digits
      else if |digits| <= d.scale then "0." + Zeroes(d.scale - |digits|) + digits
      else digits[..|digits| - d.scale] + "." + digits[|digits| - d.scale..];
    if d.coefficient < 0 || (d.coefficient == 0 && d.negativeZero) then "-" + value else value
  }

  // ---- the grammar of numerals ----

  /** A written number: optional sign, digits around an optional point, optional exponent. */
  datatype Numeral = Numeral(sign: Sign, whole: string, fraction: Option<string>, exponent: Option<(char, Sign, string)>)

  datatype Sign = NoSign | Plus | Minus

  function SignText(sign: Sign): string {
    match sign
    case NoSign => ""
    case Plus => "+"
    case Minus => "-"
  }

  predicate WellFormed(n: Numeral) {
    && AllDigits(n.whole)
    && AllDigits(Fraction(n))
    && |n.whole| + |Fraction(n)| > 0
    && (n.exponent.Some? ==>
        && n.exponent.value.0 in {'e', 'E'}
        && n.exponent.value.2 != "" && AllDigits(n.exponent.value.2))
  }

  function Fraction(n: Numeral): string { if n.fraction.Some? then n.fraction.value else "" }

  function Mantissa(n: Numeral): string { n.whole + if n.fraction.Some? then "." + n.fraction.value else "" }

  function ExponentText(n: Numeral): string
    requires n.exponent.Some?
  {
    SignText(n.exponent.value.1) + n.exponent.value.2
  }

  function Unsigned(n: Numeral): string {
    Mantissa(n) + if n.exponent.Some? then [n.exponent.value.0] + ExponentText(n) else ""
  }

  function Written(n: Numeral): string { SignText(n.sign) + Unsigned(n) }

  function Exponent(n: Numeral): int
    requires WellFormed(n)
  {
    if n.exponent.None? then 0 else Signed(n.exponent.value.1.Minus?, NatOf(n.exponent.value.2))
  }

  function Scale(n: Numeral): int
    requires WellFormed(n)
  {
    |Fraction(n)| - Exponent(n)
  }

  /** The limits of the parser: text length, exponent, number of digits, scale. */
  predicate WithinLimits(n: Numeral)
    requires WellFormed(n)
  {
    && |Written(n)| <= MAX_DIGITS + 32
    && -MAX_SCALE <= Exponent(n) <= MAX_SCALE
    && |n.whole| + |Fraction(n)| + (if Scale(n) < 0 then -Scale(n) else 0) <= MAX_DIGITS
    && Scale(n) <= MAX_SCALE
  }

  ghost function TenPower(k: int): real { if k >= 0 then Ten(k) else 1.0 / Ten(-k) }

  /** The number a numeral denotes: its digits, times a power of ten. */
  ghost function Denotes(n: Numeral): real
    requires WellFormed(n)
  {
    AllDigitsConcat(n.whole, Fraction(n));
    Signed(n.sign.Minus?, NatOf(n.whole + Fraction(n))) as real * TenPower(-Scale(n))
  }

  lemma AllDigitsConcat(a: string, b: string)
    ensures AllDigits(a + b) <==> AllDigits(a) && AllDigits(b)
  {
    assert forall i :: 0 <= i < |a| ==> (a + b)[i] == a[i];
    assert forall i :: 0 <= i < |b| ==> (a + b)[|a| + i] == b[i];
  }

  // ---- digit strings ----

  lemma {:induction false} TrimZeroesKeepsDigits(s: string)
    requires AllDigits(s)
    ensures AllDigits(TrimZeroes(s))
    ensures NatOf(TrimZeroes(s)) == NatOf(s)
    ensures TrimZeroes(s) == "" <==> NatOf(s) == 0
  {
    if s != "" && s[0] == '0' {
      TrimZeroesKeepsDigits(s[1..]);
      LeadingZero(s[1..]);
      assert s == "0" + s[1..];
    } else if s != "" {
      PositiveLead(s);
    }
  }

  lemma {:induction false} LeadingZero(s: string)
    requires AllDigits(s)
    ensures AllDigits("0" + s) && NatOf("0" + s) == NatOf(s)
  {
    AllDigitsConcat("0", s);
    if s != "" {
      var init := s[..|s| - 1];
      LeadingZero(init);
      assert ("0" + s)[..|s|] == "0" + init;
    }
  }

  lemma {:induction false} PositiveLead(s: string)
    requires AllDigits(s) && s != "" && s[0] != '0'
    ensures NatOf(s) > 0
  {
    if |s| > 1 {
      PositiveLead(s[..|s| - 1]);
    }
  }

  lemma {:induction false} TrailingZeroes(s: string, k: nat)
    requires AllDigits(s)
    ensures AllDigits(s + Zeroes(k)) && NatOf(s + Zeroes(k)) == NatOf(s) * Pow10(k)
  {
    AllDigitsConcat(s, Zeroes(k));
    if k == 0 {
      assert s + Zeroes(0) == s;
    } else {
      TrailingZeroes(s, k - 1);
      var t := s + Zeroes(k);
      assert t[..|t| - 1] == s + Zeroes(k - 1);
      assert NatOf(t) == 10 * NatOf(s + Zeroes(k - 1));
      hide NatOf;
      TenTimes(NatOf(s), Pow10(k - 1));
    }
  }

  lemma TenTimes(a: int, p: int)
    ensures a * (10 * p) == 10 * (a * p)
  {
  }

  lemma {:induction false} LeadingZeroes(k: nat, s: string)
    requires AllDigits(s)
    ensures AllDigits(Zeroes(k) + s) && NatOf(Zeroes(k) + s) == NatOf(s)
  {
    AllDigitsConcat(Zeroes(k), s);
    if k == 0 {
      assert Zeroes(0) + s == s;
    } else {
      LeadingZeroes(k - 1, s);
      LeadingZero(Zeroes(k - 1) + s);
      assert Zeroes(k) + s == "0" + (Zeroes(k - 1) + s);
    }
  }

  lemma {:induction false} DigitsDenote(n: nat)
    ensures NatOf(DigitsOf(n)) == n
  {
    if n >= 10 {
      DigitsDenote(n / 10);
      assert DigitsOf(n)[..|DigitsOf(n)| - 1] == DigitsOf(n / 10);
    } else {
      assert DigitsOf(n)[..0] == "";
    }
  }

  // ---- white space ----

  lemma {:induction false} TrimmedAround(pre: string, core: string, post: string)
    requires AllSpace(pre) && AllSpace(post)
    requires core != "" && !IsSpace(core[0]) && !IsSpace(core[|core| - 1])
    ensures TrimRight(TrimLeft(pre + core + post)) == core
    decreases |pre| + |post|
  {
    var s := pre + core + post;
    if pre != "" {
      assert s[1..] == pre[1..] + core + post;
      TrimmedAround(pre[1..], core, post);
    } else if post != "" {
      assert TrimLeft(s) == s;
      assert s[..|s| - 1] == pre + core + post[..|post| - 1];
      assert TrimLeft(s[..|s| - 1]) == s[..|s| - 1];
      TrimmedAround(pre, core, post[..|post| - 1]);
    } else {
      assert s == core;
    }
  }

  lemma {:induction false} TrimLeftSplits(s: string) returns (pre: string)
    ensures AllSpace(pre) && s == pre + TrimLeft(s)
    ensures TrimLeft(s) != "" ==> !IsSpace(TrimLeft(s)[0])
  {
    if s != "" && IsSpace(s[0]) {
      var rest := TrimLeftSplits(s[1..]);
      pre := [s[0]] + rest;
    } else {
      pre := "";
    }
  }

  lemma {:induction false} TrimRightSplits(s: string) returns (post: string)
    ensures AllSpace(post) && s == TrimRight(s) + post
    ensures TrimRight(s) != "" ==> !IsSpace(TrimRight(s)[|TrimRight(s)| - 1])
  {
    if s != "" && IsSpace(s[|s| - 1]) {
      var rest := TrimRightSplits(s[..|s| - 1]);
      post := rest + [s[|s| - 1]];
    } else {
      post := "";
    }
  }

  // ---- parsing a written numeral ----

  lemma MantissaChars(n: Numeral, i: nat)
    requires WellFormed(n) && i < |Mantissa(n)|
    ensures IsDigit(Mantissa(n)[i]) || Mantissa(n)[i] == '.'
    ensures Mantissa(n)[i] == '.' ==> n.fraction.Some? && i == |n.whole|
  {
    if i > |n.whole| {
      assert Mantissa(n)[i] == n.fraction.value[i - |n.whole| - 1];
    }
  }

  lemma ExponentChars(n: Numeral, i: nat)
    requires WellFormed(n) && n.exponent.Some? && i < |ExponentText(n)|
    ensures IsDigit(ExponentText(n)[i]) || (i == 0 && ExponentText(n)[i] in {'+', '-'})
  {
  }

  lemma ExponentIsParsed(n: Numeral)
    requires WellFormed(n) && n.exponent.Some?
    ensures ParseExponent(ExponentText(n)) ==
      if -MAX_SCALE <= Exponent(n) <= MAX_SCALE then Some(Exponent(n)) else None
  {
    hide NatOf, MAX_SCALE;
    var (_, sign, digits) := n.exponent.value;
    assert IsDigit(digits[0]);
    match sign
    case NoSign => assert ExponentText(n) == digits;
    case _ => assert ExponentText(n)[1..] == digits;
  }

  lemma FirstAt(a: string, c: char, b: string, chars: set<char>)
    requires IndexAny(a, chars) < 0 && c in chars
    ensures var s := a + ([c] + b); IndexAny(s, chars) == |a| && s[..|a|] == a && s[|a| + 1..] == b
  {
    var s := a + ([c] + b);
    assert s[|a|] == c;
    assert forall i :: 0 <= i < |a| ==> s[i] == a[i];
  }

  lemma UnsignedIsSplit(n: Numeral)
    requires WellFormed(n)
    ensures SplitExponent(Unsigned(n)) ==
      if -MAX_SCALE <= Exponent(n) <= MAX_SCALE then Ok((Mantissa(n), Exponent(n))) else Err(TooLarge)
  {
    hide IndexAny, ParseExponent, Mantissa, ExponentText;
    var m := Mantissa(n);
    forall i | 0 <= i < |m| ensures m[i] !in {'e', 'E'} {
      MantissaChars(n, i);
    }
    if n.exponent.Some? {
      var x := ExponentText(n);
      assert x != "" by { NotEmpty(n); }
      FirstAt(m, n.exponent.value.0, x, {'e', 'E'});
      forall i | 0 <= i < |x| ensures x[i] !in {'e', 'E'} {
        ExponentChars(n, i);
      }
      ExponentIsParsed(n);
    } else {
      assert Unsigned(n) == m;
    }
  }

  lemma NotEmpty(n: Numeral)
    requires WellFormed(n) && n.exponent.Some?
    ensures ExponentText(n) != ""
  {
  }

  lemma {:induction false} DigitsHaveNoPoint(a: string)
    requires AllDigits(a)
    ensures Count(a, '.') == 0
  {
    if a != "" {
      DigitsHaveNoPoint(a[1..]);
    }
  }

  lemma {:induction false} CountPoints(a: string, b: string)
    requires AllDigits(a) && AllDigits(b)
    ensures Count(a + "." + b, '.') == 1
  {
    if a != "" {
      CountPoints(a[1..], b);
      assert (a + "." + b)[1..] == a[1..] + "." + b;
    } else {
      DigitsHaveNoPoint(b);
      assert (a + "." + b)[1..] == b;
    }
  }

  lemma MantissaIsAssembled(n: Numeral, negative: bool, exponent: int)
    requires WellFormed(n)
    ensures AllDigits(n.whole + Fraction(n))
    ensures ParseMantissa(negative, Mantissa(n), exponent) ==
      Assemble(negative, n.whole + Fraction(n), |Fraction(n)| - exponent)
  {
    hide IndexAny, Count, Assemble;
    AllDigitsConcat(n.whole, Fraction(n));
    DigitsHaveNoPoint(n.whole);
    if n.fraction.Some? {
      CountPoints(n.whole, Fraction(n));
      assert n.whole + "." + Fraction(n) == n.whole + (['.'] + Fraction(n)) == Mantissa(n);
      FirstAt(n.whole, '.', Fraction(n), {'.'});
    } else {
      assert Mantissa(n) == n.whole && n.whole + Fraction(n) == n.whole;
    }
  }

  /** What a decimal holds when it was read from digits. */
  lemma AssembledValue(negative: bool, digits: string, scale: int)
    requires AllDigits(digits)
    ensures Assemble(negative, digits, scale) == Err(TooLarge) <==>
      |digits| + (if scale < 0 then -scale else 0) > MAX_DIGITS || scale > MAX_SCALE
    ensures Assemble(negative, digits, scale).Err? ==> Assemble(negative, digits, scale) == Err(TooLarge)
    ensures Assemble(negative, digits, scale).Ok? ==>
      var d := Assemble(negative, digits, scale).value;
      && d.scale == (if scale < 0 then 0 else scale)
      && d.coefficient == Signed(negative, NatOf(digits)) * Pow10(if scale < 0 then -scale else 0)
      && d.negativeZero == (negative && d.coefficient == 0)
  {
    var zeros := if scale < 0 then -scale else 0;
    TrailingZeroes(digits, zeros);
    TrimZeroesKeepsDigits(digits + Zeroes(zeros));
    hide NatOf, TrimZeroes;
    SignedProduct(negative, NatOf(digits), Pow10(zeros));
  }

  lemma WrittenEnds(n: Numeral)
    requires WellFormed(n)
    ensures var t := Written(n); t != "" && !IsSpace(t[0]) && !IsSpace(t[|t| - 1])
    ensures Unsigned(n) != "" && Unsigned(n)[0] !in {'+', '-'}
  {
    var t, m := Written(n), Mantissa(n);
    assert m != "";
    MantissaChars(n, 0);
    MantissaChars(n, |m| - 1);
    assert Unsigned(n)[0] == m[0];
    if n.exponent.Some? {
      var e := ExponentText(n);
      ExponentChars(n, |e| - 1);
      assert t[|t| - 1] == e[|e| - 1];
    } else {
      assert t[|t| - 1] == m[|m| - 1];
    }
  }

  /** The decimal a numeral is read as. */
  ghost predicate ReadsAs(n: Numeral, d: Decimal)
    requires WellFormed(n)
  {
    && Value(d) == Denotes(n)
    && d.scale == (if Scale(n) < 0 then 0 else Scale(n))
    && d.negativeZero == (n.sign.Minus? && d.coefficient == 0)
  }

  lemma AssembledDenotes(n: Numeral)
    requires WellFormed(n) && AllDigits(n.whole + Fraction(n))
    requires Assemble(n.sign.Minus?, n.whole + Fraction(n), Scale(n)).Ok?
    ensures ReadsAs(n, Assemble(n.sign.Minus?, n.whole + Fraction(n), Scale(n)).value)
  {
    hide *;
    var digits, scale := n.whole + Fraction(n), Scale(n);
    var signed := Signed(n.sign.Minus?, NatOf(digits));
    AssembledValue(n.sign.Minus?, digits, scale);
    var d := Assemble(n.sign.Minus?, digits, scale).value;
    ScaledValue(d, signed, scale);
    ReadsWhatItDenotes(n, d);
  }

  lemma ReadsWhatItDenotes(n: Numeral, d: Decimal)
    requires WellFormed(n) && AllDigits(n.whole + Fraction(n))
    requires d.scale == (if Scale(n) < 0 then 0 else Scale(n))
    requires d.negativeZero == (n.sign.Minus? && d.coefficient == 0)
    requires Value(d) == Signed(n.sign.Minus?, NatOf(n.whole + Fraction(n))) as real * TenPower(-Scale(n))
    ensures ReadsAs(n, d)
  {
    hide WellFormed, Scale, NatOf, Value, TenPower, Signed, AllDigits;
  }

  lemma ScaledValue(d: Decimal, signed: int, scale: int)
    requires d.scale == (if scale < 0 then 0 else scale)
    requires d.coefficient == signed * Pow10(if scale < 0 then -scale else 0)
    ensures Value(d) == signed as real * TenPower(-scale)
  {
    if scale > 0 {
      Inverse(signed as real, Ten(scale));
    } else {
      ScaledUp(signed, -scale);
    }
  }

  lemma SignedProduct(negative: bool, n: nat, p: nat)
    ensures n * p >= 0
    ensures Signed(negative, n * p) == Signed(negative, n) * p
  {
  }

  lemma Inverse(c: real, t: real)
    requires t >= 1.0
    ensures c / t == c * (1.0 / t)
  {
    assert (c / t) * t == c && (1.0 / t) * t == 1.0;
  }

  lemma WrittenIsAssembled(n: Numeral)
    requires WellFormed(n)
    ensures AllDigits(n.whole + Fraction(n))
    ensures ParseTrimmed(Written(n)) ==
      if |Written(n)| > MAX_DIGITS + 32 || !(-MAX_SCALE <= Exponent(n) <= MAX_SCALE) then Err(TooLarge)
      else Assemble(n.sign.Minus?, n.whole + Fraction(n), Scale(n))
  {
    hide WellFormed, Unsigned, SplitExponent, ParseMantissa, Assemble, Exponent;
    WrittenEnds(n);
    UnsignedIsSplit(n);
    MantissaIsAssembled(n, n.sign.Minus?, Exponent(n));
    var text := Written(n);
    if n.sign.NoSign? {
      assert text == Unsigned(n);
    } else {
      assert text[0] == SignText(n.sign)[0] && text[1..] == Unsigned(n);
    }
  }

  /**
   Every well-formed numeral, with white space around it, is accepted exactly if it is within the
   limits, and then read as the very number it denotes; otherwise it is too large.
   */
  lemma WrittenNumeralIsRead(pre: string, n: Numeral, post: string)
    requires AllSpace(pre) && AllSpace(post) && WellFormed(n)
    ensures var r := ParseDecimal(pre + Written(n) + post);
      if WithinLimits(n) then r.Ok? && ReadsAs(n, r.value) else r == Err(TooLarge)
  {
    hide WellFormed, ParseTrimmed, Assemble, Written, TrimLeft, TrimRight, ReadsAs, Scale, Exponent;
    WrittenEnds(n);
    TrimmedAround(pre, Written(n), post);
    WrittenIsAssembled(n);
    AssembledValue(n.sign.Minus?, n.whole + Fraction(n), Scale(n));
    if Assemble(n.sign.Minus?, n.whole + Fraction(n), Scale(n)).Ok? {
      AssembledDenotes(n);
    }
  }

  // ---- everything that is accepted is a numeral ----

  lemma SplitAt(s: string, i: nat)
    requires i < |s|
    ensures s == s[..i] + [s[i]] + s[i + 1..]
  {
  }

  /** Splits a text the way the parser does. */
  ghost function Reading(text: string): Numeral {
    var (sign, unsigned) := ReadSign(text);
    var e := IndexAny(unsigned, {'e', 'E'});
    var (whole, fraction) := ReadMantissa(if e >= 0 then unsigned[..e] else unsigned);
    Numeral(sign, whole, fraction,
            if e >= 0 then Some((unsigned[e], ReadSign(unsigned[e + 1..]).0, ReadSign(unsigned[e + 1..]).1)) else None)
  }

  ghost function ReadSign(s: string): (r: (Sign, string))
    ensures s == SignText(r.0) + r.1
  {
    if s == "" then (NoSign, s)
    else if s[0] == '+' then (Plus, s[1..])
    else if s[0] == '-' then (Minus, s[1..])
    else (NoSign, s)
  }

  ghost function ReadMantissa(m: string): (r: (string, Option<string>))
    ensures m == r.0 + if r.1.Some? then "." + r.1.value else ""
  {
    var point := IndexAny(m, {'.'});
    if point >= 0 then
      SplitAt(m, point);
      assert [m[point]] == ".";
      (m[..point], Some(m[point + 1..]))
    else (m, None)
  }

  lemma ReadingIsFaithful(text: string)
    ensures Written(Reading(text)) == text
  {
    hide ReadSign, ReadMantissa;
    var unsigned := ReadSign(text).1;
    var e := IndexAny(unsigned, {'e', 'E'});
    if e >= 0 {
      SplitAt(unsigned, e);
      assert unsigned == unsigned[..e] + ([unsigned[e]] + unsigned[e + 1..]);
    }
  }

  lemma AcceptedMantissa(negative: bool, m: string, exponent: int)
    requires ParseMantissa(negative, m, exponent).Ok?
    ensures var (whole, fraction) := ReadMantissa(m);
      var digits := if fraction.Some? then fraction.value else "";
      AllDigits(whole) && AllDigits(digits) && |whole| + |digits| > 0
  {
    var (whole, fraction) := ReadMantissa(m);
    AllDigitsConcat(whole, if fraction.Some? then fraction.value else "");
  }

  lemma AcceptedParts(text: string)
    requires ParseTrimmed(text).Ok?
    ensures SplitExponent(ReadSign(text).1).Ok?
    ensures var (mantissa, exponent) := SplitExponent(ReadSign(text).1).value;
      ParseMantissa(text != "" && text[0] == '-', mantissa, exponent).Ok?
  {
    hide SplitExponent, ParseMantissa;
  }

  lemma AcceptedExponentPart(unsigned: string)
    requires SplitExponent(unsigned).Ok?
    ensures var e := IndexAny(unsigned, {'e', 'E'});
      && SplitExponent(unsigned).value.0 == (if e >= 0 then unsigned[..e] else unsigned)
      && (e >= 0 ==> ParseExponent(unsigned[e + 1..]).Some?)
  {
    hide ParseExponent, IndexAny;
  }

  lemma AcceptedIsWellFormed(text: string)
    requires ParseTrimmed(text).Ok?
    ensures WellFormed(Reading(text))
  {
    hide ParseTrimmed, ParseMantissa, SplitExponent, ReadMantissa, ReadSign, ParseExponent, IndexAny, SignText;
    AcceptedParts(text);
    var unsigned := ReadSign(text).1;
    AcceptedExponentPart(unsigned);
    var (mantissa, exponent) := SplitExponent(unsigned).value;
    AcceptedMantissa(text != "" && text[0] == '-', mantissa, exponent);
    var e := IndexAny(unsigned, {'e', 'E'});
    if e >= 0 {
      AcceptedExponent(unsigned[e + 1..]);
    }
  }

  lemma AcceptedExponent(x: string)
    requires ParseExponent(x).Some?
    ensures ReadSign(x).1 != "" && AllDigits(ReadSign(x).1)
  {
  }

  /** Only white space around a well-formed numeral within the limits is ever accepted. */
  lemma AcceptedIsWritten(original: string)
    requires ParseDecimal(original).Ok?
    ensures exists pre, n, post ::
      && AllSpace(pre) && AllSpace(post) && WellFormed(n) && original == pre + Written(n) + post
      && WithinLimits(n) && ReadsAs(n, ParseDecimal(original).value)
  {
    hide ParseTrimmed, TrimLeft, TrimRight, Reading, Written, ReadsAs, WithinLimits, WellFormed;
    var text := TrimRight(TrimLeft(original));
    var n := Reading(text);
    AcceptedIsWellFormed(text);
    ReadingIsFaithful(text);
    var pre := TrimLeftSplits(original);
    var post := TrimRightSplits(TrimLeft(original));
    assert original == pre + Written(n) + post;
    WrittenNumeralIsRead(pre, n, post);
  }

  // ---- round trip ----

  /** The numeral that is printed. */
  ghost function Printed(d: Decimal): Numeral {
    var digits := DigitsOf(AbsInt(d.coefficient));
    var sign := if d.coefficient < 0 || (d.coefficient == 0 && d.negativeZero) then Minus else NoSign;
    if d.scale == 0 then Numeral(sign, digits, None, None)
    else if |digits| <= d.scale then Numeral(sign, "0", Some(Zeroes(d.scale - |digits|) + digits), None)
    else Numeral(sign, digits[..|digits| - d.scale], Some(digits[|digits| - d.scale..]), None)
  }

  /** The digits of what is printed, without the point. */
  lemma PrintedDigits(d: Decimal)
    ensures var n := Printed(d);
      && n.exponent.None? && |Fraction(n)| == d.scale
      && AllDigits(n.whole + Fraction(n))
      && NatOf(n.whole + Fraction(n)) == AbsInt(d.coefficient)
      && |n.whole + Fraction(n)| == Max(|DigitsOf(AbsInt(d.coefficient))|, d.scale + 1)
  {
    hide NatOf, DigitsOf, AllDigits;
    var digits := DigitsOf(AbsInt(d.coefficient));
    DigitsDenote(AbsInt(d.coefficient));
    if d.scale == 0 {
      assert digits + "" == digits;
    } else if |digits| <= d.scale {
      LeadingZeroes(d.scale - |digits|, digits);
      LeadingZero(Zeroes(d.scale - |digits|) + digits);
    } else {
      var point := |digits| - d.scale;
      assert digits == digits[..point] + digits[point..];
    }
  }

  lemma PrintedIsText(d: Decimal)
    ensures Written(Printed(d)) == Text(d)
  {
    hide DigitsOf, Zeroes, AbsInt, Unsigned, SignText;
    var n := Printed(d);
    PrintedValue(d);
    SignBefore(n.sign, Unsigned(n));
  }

  lemma SignBefore(sign: Sign, value: string)
    ensures sign == Minus ==> SignText(sign) + value == "-" + value
    ensures sign == NoSign ==> SignText(sign) + value == value
  {
  }

  /** What is printed after the sign. */
  lemma PrintedValue(d: Decimal)
    ensures var digits := DigitsOf(AbsInt(d.coefficient));
      Unsigned(Printed(d)) ==
        if d.scale == 0 then digits
        else if |digits| <= d.scale then "0." + Zeroes(d.scale - |digits|) + digits
        else digits[..|digits| - d.scale] + "." + digits[|digits| - d.scale..]
  {
    hide DigitsOf, Zeroes, AbsInt, SignText;
    var digits := DigitsOf(AbsInt(d.coefficient));
    if d.scale > 0 {
      if |digits| <= d.scale {
        PointAfterZero(Zeroes(d.scale - |digits|), digits);
      } else {
        PointBetween(digits[..|digits| - d.scale], digits[|digits| - d.scale..]);
      }
    }
  }

  lemma PointAfterZero(zeroes: string, digits: string)
    ensures "0" + ("." + (zeroes + digits)) == "0." + zeroes + digits
  {
  }

  lemma PointBetween(whole: string, fraction: string)
    ensures whole + ("." + fraction) == whole + "." + fraction
  {
  }

  lemma PrintedIsWellFormed(d: Decimal)
    ensures var n := Printed(d); WellFormed(n) && Exponent(n) == 0 && Scale(n) == d.scale
    ensures var n := Printed(d); |Written(n)| <= |n.whole + Fraction(n)| + 2
  {
    hide NatOf, DigitsOf;
    PrintedDigits(d);
    AllDigitsConcat(Printed(d).whole, Fraction(Printed(d)));
  }

  function Max(a: int, b: int): int { if a > b then a else b }

  /**
   Printing and parsing gives the same coefficient, scale and sign of zero, for every constructible
   decimal of at most 10000 digits counting a leading zero; any longer one is refused.
   */
  lemma PrintedDecimalIsReadBack(d: Decimal)
    requires Constructible(d)
    ensures ParseDecimal(Text(d)) ==
      if Max(|DigitsOf(AbsInt(d.coefficient))|, d.scale + 1) <= MAX_DIGITS then Ok(d) else Err(TooLarge)
  {
    hide ParseDecimal, Text, Printed, DigitsOf, NatOf, AbsInt, AllDigits, WellFormed, Written, Scale, Exponent, ReadsAs;
    var n := Printed(d);
    PrintedSign(d);
    PrintedDigits(d);
    PrintedIsText(d);
    PrintedIsWellFormed(d);
    WrittenNumeralIsRead("", n, "");
    assert "" + Written(n) + "" == Text(d);
    if WithinLimits(n) {
      SameCoefficient(d, n, ParseDecimal(Text(d)).value);
    }
  }

  lemma PrintedSign(d: Decimal)
    requires Constructible(d)
    ensures Printed(d).sign.Minus? <==> d.coefficient < 0 || d.negativeZero
  {
  }

  lemma SameCoefficient(d: Decimal, n: Numeral, r: Decimal)
    requires Constructible(d) && WellFormed(n) && AllDigits(n.whole + Fraction(n))
    requires n.sign.Minus? <==> d.coefficient < 0 || d.negativeZero
    requires NatOf(n.whole + Fraction(n)) == AbsInt(d.coefficient)
    requires n.exponent.None? && |Fraction(n)| == d.scale && ReadsAs(n, r)
    ensures r == d
  {
    hide Value, TenPower, NatOf, Fraction, AllDigits, WellFormed;
    assert Exponent(n) == 0 && Scale(n) == d.scale;
    PlainValue(d);
    ValueScaled(d);
    ValueScaled(r);
  }

  lemma PlainValue(d: Decimal)
    ensures var scale: int := d.scale; Value(d) == d.coefficient as real * TenPower(-scale)
  {
    if d.scale > 0 {
      Inverse(d.coefficient as real, Ten(d.scale));
    }
  }
}
