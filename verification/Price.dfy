/** The price contract: plain decimals of whole cents, exactly. */
module Price {
  import opened Options
  import opened CanonicalEncoding
  import opened Fingerprints
  import opened PrefixCodes
  import opened JsonText

  const MAX_CENTS := 9_999_999_999

  /** A value before validation: a string, a number, a number that is not finite, or anything else (a Boolean too). */
  datatype Input = Text(text: string) | Number(number: Decimal) | Special | Other

  datatype Error = PriceFormat | PriceType | PriceRange | PricePrecision

  datatype Verdict = Accepted(price: Decimal) | Refused(error: Error)

  // ---------- plain decimal strings

  /** Digits, then possibly a point and one or two digits. `point` is where the point is, or the end. */
  predicate Plain(s: string, point: nat) {
    && 1 <= point <= |s| && All(s[..point], DigitChar)
    && (point < |s| ==> s[point] == '.' && point + 2 <= |s| <= point + 3 && All(s[point + 1..], DigitChar))
  }

  function PointOf(s: string): (r: nat)
    ensures r <= |s|
  {
    if s == [] || s[0] == '.' then 0 else 1 + PointOf(s[1..])
  }

  function Parsed(s: string): Decimal
    requires Plain(s, PointOf(s))
  {
    var p := PointOf(s);
    if p == |s| then Decimal(false, Number10(s), 0)
    else Decimal(false, NatPow10(|s| - p - 1) * Number10(s[..p]) + Number10(s[p + 1..]), p + 1 - |s|)
  }

  // ---------- validation

  /** Rounding to the nearest whole number, a tie to the even one. */
  function RoundHalfEven(n: nat, d: nat): nat
    requires d > 0
  {
    var q, r := n / d, n % d;
    if 2 * r > d || (2 * r == d && q % 2 == 1) then q + 1 else q
  }

  /** The number of cents nearest to a number that is not negative. */
  function Quantized(n: Decimal): nat {
    if n.exponent >= -2 then n.coefficient * NatPow10(n.exponent + 2)
    else
      PowerPositive(-2 - n.exponent);
      RoundHalfEven(n.coefficient, NatPow10(-2 - n.exponent))
  }

  function Cents(k: nat): Decimal {
    Decimal(false, k, -2)
  }

  predicate InRange(n: Decimal) {
    Value(Cents(1)) <= Value(n) <= Value(Cents(MAX_CENTS))
  }

  function ValidateNumber(n: Decimal): Verdict {
    if !InRange(n) then Refused(PriceRange)
    else
      var cents := Cents(Quantized(n));
      if Value(n) != Value(cents) then Refused(PricePrecision) else Accepted(cents)
  }

  function Validate(v: Input): Verdict {
    match v
    case Text(s) => if Plain(s, PointOf(s)) then ValidateNumber(Parsed(s)) else Refused(PriceFormat)
    case Number(n) => ValidateNumber(n)
    case Special => Refused(PriceRange)
    case Other => Refused(PriceType)
  }

  // ---------- arithmetic

  lemma {:induction false} PowerPositive(k: nat)
    ensures NatPow10(k) > 0
  {
    if k > 0 {
      PowerPositive(k - 1);
    }
  }

  lemma MagnitudeOrder(c: nat, d: nat, e: int)
    ensures Magnitude(c, e) <= Magnitude(d, e) <==> c <= d
  {
    var p := Pow10(e);
    assert (d as real - c as real) * p == Magnitude(d, e) - Magnitude(c, e);
    if c < d {
      assert (d as real - c as real) * p > 0.0;
    } else if c > d {
      assert (c as real - d as real) * p > 0.0;
    }
  }

  /** Rounding keeps a whole number, and does not pass a bound. */
  lemma RoundFacts(n: nat, d: nat, bound: nat)
    requires d > 0
    ensures n == RoundHalfEven(n, d) * d <==> n % d == 0
    ensures n <= bound * d ==> RoundHalfEven(n, d) <= bound
    ensures n % d == 0 ==> RoundHalfEven(n, d) == n / d
  {
    var q, r := n / d, n % d;
    assert n == q * d + r;
    assert (q + 1) * d == q * d + d;
    if n <= bound * d {
      if q >= bound {
        assert q * d >= bound * d;
      }
    }
  }

  /** A number of cents at the scale of the input. */
  lemma CentsAtScale(n: Decimal, k: nat)
    ensures n.exponent >= -2 ==> Magnitude(n.coefficient, n.exponent) == Magnitude(Quantized(n), -2)
    ensures n.exponent < -2 ==> Magnitude(k, -2) == Magnitude(k * NatPow10(-2 - n.exponent), n.exponent)
  {
    if n.exponent >= -2 {
      MagnitudeSplit(n.coefficient, -2, n.exponent + 2);
    } else {
      MagnitudeSplit(k, n.exponent, -2 - n.exponent);
    }
  }

  /** If the number is a whole number of cents, rounding finds it. */
  lemma QuantizedExact(n: Decimal, k: nat)
    requires Value(n) == Value(Cents(k))
    ensures Quantized(n) == k
  {
    CentsAtScale(n, k);
    if n.exponent >= -2 {
      SameExponent(Quantized(n), k, -2);
    } else {
      var d := NatPow10(-2 - n.exponent);
      PowerPositive(-2 - n.exponent);
      SameExponent(n.coefficient, k * d, n.exponent);
      MultipleFacts(k, d);
      RoundFacts(n.coefficient, d, k);
    }
  }

  lemma MultipleFacts(k: nat, d: nat)
    requires d > 0
    ensures (k * d) % d == 0 && (k * d) / d == k
  {
    assert k * d == d * k + 0;
    DivisionUnique(k * d, d, k);
  }

  lemma DivisionUnique(n: nat, d: nat, q: nat)
    requires d > 0 && n == q * d
    ensures n / d == q && n % d == 0
  {
    assert n == (n / d) * d + n % d;
    assert (q - n / d) * d == q * d - (n / d) * d;
    NoSmallMultiple(q - n / d, d, n % d);
  }

  lemma NoSmallMultiple(z: int, d: nat, r: nat)
    requires z * d == r && r < d
    ensures z == 0
  {
    if z >= 1 {
      Product(z - 1, d);
    } else if z <= -1 {
      Product(-z - 1, d);
    }
  }

  lemma Product(a: int, d: int)
    requires a >= 0 && d >= 0
    ensures a * d >= 0 && (a + 1) * d == a * d + d && (-a - 1) * d == -(a * d) - d
  {
  }

  /** A price in range rounds to at most ten digits, so the ten-digit context never overflows. */
  lemma QuantizeFits(n: Decimal)
    requires InRange(n)
    ensures Quantized(n) <= MAX_CENTS
  {
    CentsAtScale(n, MAX_CENTS);
    if n.exponent >= -2 {
      MagnitudeOrder(Quantized(n), MAX_CENTS, -2);
    } else {
      var d := NatPow10(-2 - n.exponent);
      PowerPositive(-2 - n.exponent);
      MagnitudeOrder(n.coefficient, MAX_CENTS * d, n.exponent);
      RoundFacts(n.coefficient, d, MAX_CENTS);
    }
  }

  // ---------- main results

  /** The number is `k` cents. */
  predicate IsCents(n: Decimal, k: nat) {
    1 <= k <= 9_999_999_999 && Value(n) == Value(Cents(k))
  }

  /** A number is accepted exactly if it is a whole number of cents in range, and comes back as that number of cents. */
  lemma AcceptsWholeCents(n: Decimal, price: Decimal)
    ensures ValidateNumber(n) == Accepted(price) <==> exists k :: IsCents(n, k) && price == Cents(k)
  {
    if ValidateNumber(n) == Accepted(price) {
      var k := Quantized(n);
      QuantizeFits(n);
      MagnitudeOrder(1, k, -2);
      assert IsCents(n, k);
    }
    if k :| IsCents(n, k) && price == Cents(k) {
      QuantizedExact(n, k);
      MagnitudeOrder(1, k, -2);
      MagnitudeOrder(k, MAX_CENTS, -2);
    }
  }

  lemma AcceptedIsCents(v: Input, price: Decimal)
    ensures Validate(v) == Accepted(price) ==> exists k :: IsCents(price, k) && price == Cents(k)
  {
    if Validate(v) == Accepted(price) {
      var n := if v.Text? then Parsed(v.text) else v.number;
      AcceptsWholeCents(n, price);
      var k :| IsCents(n, k) && price == Cents(k);
      assert IsCents(price, k);
    }
  }

  /** An accepted price is validated to itself. */
  lemma ValidateIdempotent(v: Input, price: Decimal)
    ensures Validate(v) == Accepted(price) ==> Validate(Number(price)) == Accepted(price)
  {
    AcceptedIsCents(v, price);
    AcceptsWholeCents(price, price);
  }

  /** Accepted spellings have one fingerprint text exactly if they are one price, and are then one value. */
  lemma SamePriceSameText(v: Input, w: Input, p: Decimal, q: Decimal)
    ensures Validate(v) == Accepted(p) && Validate(w) == Accepted(q) ==>
      (EncodeNumber(p) == EncodeNumber(q) <==> Value(p) == Value(q)) && (Value(p) == Value(q) <==> p == q)
  {
    EncodeIffSame(Num(p), Num(q));
    AcceptedIsCents(v, p);
    AcceptedIsCents(w, q);
    if Value(p) == Value(q) && p.exponent == q.exponent && !p.negative && !q.negative {
      SameExponent(p.coefficient, q.coefficient, p.exponent);
    }
  }

  /** A plain decimal string is never refused for its precision. */
  lemma TextIsPrecise(s: string)
    ensures Validate(Text(s)) != Refused(PricePrecision)
  {
    if Plain(s, PointOf(s)) {
      CentsAtScale(Parsed(s), 0);
    }
  }

  // ---------- the usual spelling

  function TwoDigits(n: nat): string
    requires n < 100
  {
    [Digit(n / 10), Digit(n % 10)]
  }

  function Spelled(k: nat): string {
    Digits(k / 100) + "." + TwoDigits(k % 100)
  }

  lemma {:induction false} PointAfter(s: string, t: string)
    requires All(s, DigitChar)
    ensures PointOf(s + "." + t) == |s|
  {
    if s != [] {
      assert (s + "." + t)[1..] == s[1..] + "." + t;
      PointAfter(s[1..], t);
    }
  }

  lemma NumberOfTwo(n: nat)
    requires n < 100
    ensures All(TwoDigits(n), DigitChar) && Number10(TwoDigits(n)) == n
  {
    var s := TwoDigits(n);
    assert s[..1] == [Digit(n / 10)];
    assert s[..1][..0] == [];
    assert Number10(s[..1]) == n / 10;
  }

  /** Every price is accepted in its usual spelling, as that price. */
  lemma SpelledAccepted(k: nat)
    requires 1 <= k <= MAX_CENTS
    ensures Validate(Text(Spelled(k))) == Accepted(Cents(k))
  {
    HundredthsParsed(k / 100, k % 100);
    CentsAccepted(Cents(k), k);
  }

  lemma HundredthsParsed(n: nat, f: nat)
    requires f < 100
    ensures var s := Digits(n) + "." + TwoDigits(f); Plain(s, PointOf(s)) && Parsed(s) == Cents(100 * n + f)
  {
    NumberOfTwo(f);
    PointParsed(n, TwoDigits(f), f);
    Hundred();
  }

  lemma Hundred()
    ensures NatPow10(2) == 100
  {
    assert NatPow10(1) == 10 * NatPow10(0);
  }

  lemma NumberOfOne(n: nat)
    requires n < 10
    ensures All([Digit(n)], DigitChar) && Number10([Digit(n)]) == n
  {
    assert [Digit(n)][..0] == [];
  }

  /** What a point with one or two digits behind it is parsed to. */
  lemma PointParsed(n: nat, t: string, f: nat)
    requires 1 <= |t| <= 2 && All(t, DigitChar) && Number10(t) == f
    ensures var s := Digits(n) + "." + t;
      Plain(s, PointOf(s)) && Parsed(s) == Decimal(false, NatPow10(|t|) * n + f, -|t|)
  {
    NumberOfDigits(n);
    PlainParts(Digits(n) + "." + t, Digits(n), t);
  }

  /** One digit behind the point stands for tenths. */
  lemma TenthsAccepted(k: nat)
    requires 1 <= k <= MAX_CENTS && k % 10 == 0
    ensures Validate(Text(Digits(k / 100) + "." + [Digit(k % 100 / 10)])) == Accepted(Cents(k))
  {
    NumberOfOne(k % 100 / 10);
    PointParsed(k / 100, [Digit(k % 100 / 10)], k % 100 / 10);
    assert NatPow10(1) == 10 * NatPow10(0) == 10;
    assert k / 10 == 10 * (k / 100) + k % 100 / 10;
    MagnitudeShift(k / 10, -2);
    CentsAccepted(Decimal(false, k / 10, -1), k);
  }

  lemma UnitsParsed(n: nat)
    ensures Plain(Digits(n), PointOf(Digits(n))) && Parsed(Digits(n)) == Decimal(false, n, 0)
  {
    NumberOfDigits(n);
    PointAtEnd(Digits(n));
    assert Digits(n)[..|Digits(n)|] == Digits(n);
  }

  /** A price of whole units needs no point. */
  lemma UnitsAccepted(k: nat)
    requires 1 <= k <= MAX_CENTS && k % 100 == 0
    ensures Validate(Text(Digits(k / 100))) == Accepted(Cents(k))
  {
    UnitsParsed(k / 100);
    MagnitudeShift(k / 100, -1);
    MagnitudeShift(k / 10, -2);
    assert 10 * (k / 100) == k / 10 && 10 * (k / 10) == k;
    CentsAccepted(Decimal(false, k / 100, 0), k);
  }

  lemma CentsAccepted(n: Decimal, k: nat)
    requires IsCents(n, k)
    ensures ValidateNumber(n) == Accepted(Cents(k))
  {
    AcceptsWholeCents(n, Cents(k));
  }

  lemma {:induction false} PointAtEnd(s: string)
    requires All(s, DigitChar)
    ensures PointOf(s) == |s|
  {
    if s != [] {
      PointAtEnd(s[1..]);
    }
  }

  // ---------- every input

  /** Digits `d`, and if `f` is not empty a point and the one or two digits `f`. */
  predicate PlainText(s: string, d: string, f: string) {
    && d != "" && All(d, DigitChar) && |f| <= 2 && All(f, DigitChar)
    && s == if f == "" then d else d + "." + f
  }

  ghost predicate IsPlain(s: string) {
    exists d, f :: PlainText(s, d, f)
  }

  lemma {:induction false} PointFound(s: string)
    ensures var p := PointOf(s); (p < |s| ==> s[p] == '.') && forall i | 0 <= i < p :: s[i] != '.'
  {
    if s != [] && s[0] != '.' {
      PointFound(s[1..]);
    }
  }

  /** The pattern of a plain decimal string, in both directions. */
  lemma PlainExactly(s: string)
    ensures Plain(s, PointOf(s)) <==> IsPlain(s)
  {
    var p := PointOf(s);
    PointFound(s);
    if Plain(s, p) {
      var d, f := s[..p], if p < |s| then s[p + 1..] else "";
      assert s == if f == "" then d else d + "." + f;
      assert PlainText(s, d, f);
    }
    if d, f :| PlainText(s, d, f) {
      PlainParts(s, d, f);
    }
  }

  lemma PlainParts(s: string, d: string, f: string)
    requires PlainText(s, d, f)
    ensures Plain(s, PointOf(s)) && PointOf(s) == |d|
    ensures f == "" ==> s[..|d|] == d
    ensures f != "" ==> s[..|d|] == d && s[|d| + 1..] == f
  {
    if f == "" {
      PointAtEnd(s);
    } else {
      PointAfter(d, f);
    }
  }

  /** A plain decimal string stands for the number it spells: its digits, divided by ten for each behind the point. */
  lemma ParsedValue(s: string, d: string, f: string)
    requires PlainText(s, d, f)
    ensures Plain(s, PointOf(s))
    ensures Value(Parsed(s)) == Magnitude(NatPow10(|f|) * Number10(d) + Number10(f), -|f|)
  {
    PlainParts(s, d, f);
    if f == "" {
      assert NatPow10(0) * Number10(d) + Number10("") == Number10(d);
    }
  }

  /** The number that an input stands for, if it is one. */
  function NumberOf(v: Input): Option<Decimal> {
    match v
    case Text(s) => if Plain(s, PointOf(s)) then Some(Parsed(s)) else None
    case Number(n) => Some(n)
    case _ => None
  }

  lemma CentValues()
    ensures Value(Cents(1)) == 0.01 && Value(Cents(MAX_CENTS)) == 99999999.99
  {
    assert Pow10(-2) == Pow10(-1) / 10.0 && Pow10(-1) == 0.1;
  }

  /** Each refusal has its own inputs: what is no number or string, text that is not plain, numbers out of range, and fractions of a cent. */
  lemma RefusedExactly(v: Input)
    ensures Validate(v) == Refused(PriceType) <==> v.Other?
    ensures Validate(v) == Refused(PriceFormat) <==> v.Text? && !IsPlain(v.text)
    ensures Validate(v) == Refused(PriceRange) <==>
      v.Special? || (NumberOf(v).Some? && !(0.01 <= Value(NumberOf(v).value) <= 99999999.99))
    ensures Validate(v) == Refused(PricePrecision) <==>
      NumberOf(v).Some? && 0.01 <= Value(NumberOf(v).value) <= 99999999.99 && !exists k :: IsCents(NumberOf(v).value, k)
  {
    CentValues();
    if v.Text? {
      PlainExactly(v.text);
    }
    if NumberOf(v).Some? {
      NumberRefused(NumberOf(v).value);
    }
  }

  lemma NumberRefused(n: Decimal)
    ensures ValidateNumber(n) == Refused(PriceRange) <==> !InRange(n)
    ensures ValidateNumber(n) == Refused(PricePrecision) <==> InRange(n) && !exists k :: IsCents(n, k)
  {
    if k :| IsCents(n, k) {
      AcceptsWholeCents(n, Cents(k));
    }
    if ValidateNumber(n).Accepted? {
      AcceptsWholeCents(n, ValidateNumber(n).price);
    }
  }
}
