/**
 Order amounts. The column is NUMERIC(12,2), so a stored amount is a whole number of cents below 10^12 in size.
 Reading an order turns it into a float64 and prints that with two decimals; creating one scans decimal text.
 */
module Amounts {
  import opened Wrappers

  const CENTS_BOUND := 1_000_000_000_000

  type Cents = c: int | -CENTS_BOUND < c < CENTS_BOUND

  const TWO_52 := 0x10_0000_0000_0000
  const TWO_53 := 0x20_0000_0000_0000

  // ---------------------------------------------------------------- binary floating point

  /** The double significand / 2^shift. Every finite double has this form, and every value of this form is one. */
  datatype Double = Double(significand: int, shift: int)

  predicate IsDouble(f: Double) {
    -TWO_53 < f.significand < TWO_53 && -971 <= f.shift <= 1074
  }

  /** x * 2^e. */
  function Scaled(x: real, e: int): real
    decreases if e < 0 then -e else e
  {
    if e == 0 then x else if e > 0 then 2.0 * Scaled(x, e - 1) else Scaled(x, e + 1) / 2.0
  }

  /** n * 2^k. */
  function Doubled(n: int, k: nat): (r: int)
    ensures n > 0 ==> r > 0
  {
    if k == 0 then n else 2 * Doubled(n, k - 1)
  }

  function Value(f: Double): real {
    Scaled(f.significand as real, -f.shift)
  }

  function Distance(a: real, b: real): real {
    if a < b then b - a else a - b
  }

  /** Round to nearest, section 4.3.1 of IEEE 754-2019: no double is closer to x. */
  ghost predicate IsNearest(f: Double, x: real) {
    IsDouble(f) && forall g :: IsDouble(g) ==> Distance(Value(f), x) <= Distance(Value(g), x)
  }

  /** The scale at which c / 100 has a 53-bit integer part. */
  function ScaleOf(c: nat, k: nat): (r: nat)
    requires c > 0
    requires Doubled(c, k) < 100 * TWO_53
    ensures 100 * TWO_52 <= Doubled(c, r) < 100 * TWO_53
    decreases 100 * TWO_52 - Doubled(c, k)
  {
    if Doubled(c, k) >= 100 * TWO_52 then k else ScaleOf(c, k + 1)
  }

  /** The conversion of a positive amount: the integer nearest to the scaled amount, with the carry into 2^53. */
  function PositiveDouble(c: nat): Double
    requires 0 < c < CENTS_BOUND
  {
    var k := ScaleOf(c, 0);
    var m := (2 * Doubled(c, k) + 100) / 200;
    if m < TWO_53 then Double(m, k) else Double(TWO_52, k - 1)
  }

  function Negated(f: Double): Double {
    Double(-f.significand, f.shift)
  }

  /** Numeric.Float64Value: the double for c / 100. */
  function ToDouble(c: Cents): Double {
    if c == 0 then Double(0, 0)
    else if c > 0 then PositiveDouble(c)
    else Negated(PositiveDouble(-c))
  }

  // ---------------------------------------------------------------- scaling by powers of two

  lemma ScaledOnce(x: real, e: int)
    ensures Scaled(x, e + 1) == 2.0 * Scaled(x, e)
  {
  }

  lemma {:induction false} ScaledAgain(x: real, e: int, k: nat)
    ensures Scaled(Scaled(x, e), k) == Scaled(x, e + k)
    decreases k
  {
    if k == 0 {
    } else {
      ScaledAgain(x, e, k - 1);
      ScaledOnce(x, e + k - 1);
    }
  }

  lemma {:induction false} ScaledNegates(x: real, e: int)
    ensures Scaled(-x, e) == -Scaled(x, e)
    decreases if e < 0 then -e else e
  {
    if e != 0 {
      ScaledNegates(x, if e > 0 then e - 1 else e + 1);
    }
  }

  lemma {:induction false} ScaledDistance(a: real, b: real, k: nat)
    ensures Distance(Scaled(a, k), Scaled(b, k)) == Scaled(Distance(a, b), k)
    decreases k
  {
    if k == 0 {
    } else {
      ScaledDistance(a, b, k - 1);
    }
  }

  lemma {:induction false} ScaledOrder(a: real, b: real, k: nat)
    ensures Scaled(a, k) <= Scaled(b, k) <==> a <= b
    decreases k
  {
    if k == 0 {
    } else {
      ScaledOrder(a, b, k - 1);
    }
  }

  lemma {:induction false} ScaledInteger(n: int, k: nat)
    ensures Scaled(n as real, k) == Doubled(n, k) as real
    decreases k
  {
    if k == 0 {
    } else {
      ScaledInteger(n, k - 1);
    }
  }

  lemma {:induction false} ScaledHundredths(c: int, k: nat)
    ensures Scaled(c as real / 100.0, k) == Doubled(c, k) as real / 100.0
    decreases k
  {
    if k == 0 {
    } else {
      ScaledHundredths(c, k - 1);
    }
  }

  lemma {:induction false} ScaledDown(x: real, d: nat, bound: real)
    requires d >= 1 && x < bound && bound > 0.0
    ensures Scaled(x, 0 - d) < bound / 2.0
    decreases d
  {
    if d > 1 {
      ScaledDown(x, d - 1, bound);
    }
  }

  lemma {:induction false} ScaledGrows(x: real, k: nat)
    requires x >= 0.0 && k >= 7
    ensures Scaled(x, k) >= 128.0 * x
    decreases k
  {
    if k > 7 {
      ScaledGrows(x, k - 1);
    } else {
      assert Scaled(x, 3) == 8.0 * x;
      assert Scaled(x, 5) == 32.0 * x;
    }
  }

  lemma {:induction false} DoubledAgain(n: int, j: nat, k: nat)
    ensures Doubled(Doubled(n, j), k) == Doubled(n, j + k)
    decreases k
  {
    if k == 0 {
    } else {
      DoubledAgain(n, j, k - 1);
    }
  }

  lemma DoubledBy4(n: int)
    ensures Doubled(n, 4) == 16 * n
  {
    assert Doubled(n, 1) == 2 * n;
    assert Doubled(n, 3) == 8 * n;
  }

  lemma DoubledBy16(n: int)
    ensures Doubled(n, 16) == 0x1_0000 * n
  {
    DoubledBy4(n);
    DoubledBy4(Doubled(n, 4));
    DoubledAgain(n, 4, 4);
    DoubledBy4(Doubled(n, 8));
    DoubledAgain(n, 8, 4);
    DoubledBy4(Doubled(n, 12));
    DoubledAgain(n, 12, 4);
  }

  lemma DoubledBy64(n: int)
    ensures Doubled(n, 64) == 0x1_0000_0000_0000_0000 * n
  {
    DoubledBy16(n);
    DoubledBy16(Doubled(n, 16));
    DoubledAgain(n, 16, 16);
    DoubledBy16(Doubled(n, 32));
    DoubledAgain(n, 32, 16);
    DoubledBy16(Doubled(n, 48));
    DoubledAgain(n, 48, 16);
  }

  lemma {:induction false} DoubledIsMonotone(a: nat, b: nat, j: nat, k: nat)
    requires a <= b && j <= k
    ensures 0 <= Doubled(a, j) <= Doubled(b, k)
    decreases k
  {
    if k == 0 {
    } else {
      DoubledIsMonotone(a, b, if j > 0 then j - 1 else 0, k - 1);
    }
  }

  lemma ScaleIsSmall(c: nat)
    requires 0 < c < CENTS_BOUND
    ensures 7 <= ScaleOf(c, 0) <= 64
  {
    var k := ScaleOf(c, 0);
    if k < 7 {
      DoubledIsMonotone(c, CENTS_BOUND, k, 16);
      DoubledBy16(CENTS_BOUND);
    }
    if k > 64 {
      DoubledIsMonotone(1, c, 64, k);
      DoubledBy64(1);
    }
  }

  // ---------------------------------------------------------------- rounding to nearest

  /** Scaling by 2^k turns a double with at most k binary places into an integer. */
  lemma CoarseDoubleScales(g: Double, k: nat) returns (n: int)
    requires g.shift <= k
    ensures Scaled(Value(g), k) == n as real
  {
    ScaledAgain(g.significand as real, -g.shift, k);
    ScaledInteger(g.significand, k - g.shift);
    n := Doubled(g.significand, k - g.shift);
  }

  /** A double with more than k binary places stays below 2^52 when scaled by 2^k. */
  lemma FineDoubleScales(g: Double, k: nat)
    requires IsDouble(g) && g.shift > k
    ensures Scaled(Value(g), k) < TWO_52 as real
  {
    ScaledAgain(g.significand as real, -g.shift, k);
    ScaledDown(g.significand as real, g.shift - k, TWO_53 as real);
  }

  /** No integer is closer to y than m, when m is within a half of y. */
  lemma RoundedIsClosest(m: int, n: int, y: real)
    requires Distance(m as real, y) <= 0.5
    ensures Distance(m as real, y) <= Distance(n as real, y)
  {
    if n > m {
      assert n as real >= m as real + 1.0;
    } else if n < m {
      assert n as real <= m as real - 1.0;
    }
  }

  /** No double is closer to y, after scaling by 2^k, than the integer m nearest to y. */
  lemma ScaledIsClosest(g: Double, k: nat, m: int, y: real)
    requires IsDouble(g) && y >= TWO_52 as real && Distance(m as real, y) <= 0.5
    ensures Distance(m as real, y) <= Distance(Scaled(Value(g), k), y)
  {
    if g.shift <= k {
      var n := CoarseDoubleScales(g, k);
      RoundedIsClosest(m, n, y);
    } else {
      FineDoubleScales(g, k);
      RoundedIsClosest(m, TWO_52, y);
    }
  }

  /** Being closest after scaling is being closest. */
  lemma ClosestUnscales(a: real, b: real, x: real, k: nat)
    requires Distance(Scaled(a, k), Scaled(x, k)) <= Distance(Scaled(b, k), Scaled(x, k))
    ensures Distance(a, x) <= Distance(b, x)
  {
    ScaledDistance(a, x, k);
    ScaledDistance(b, x, k);
    ScaledOrder(Distance(a, x), Distance(b, x), k);
  }

  lemma ErrorIsSmall(a: real, x: real, k: nat)
    requires k >= 7 && Distance(Scaled(a, k), Scaled(x, k)) <= 0.5
    ensures Distance(a, x) * 200.0 < 1.0
  {
    ScaledDistance(a, x, k);
    ScaledGrows(Distance(a, x), k);
  }

  /** The rounded significand is within a half of the scaled amount. */
  lemma RoundedWithinHalf(n: nat)
    ensures Distance(((2 * n + 100) / 200) as real, n as real / 100.0) <= 0.5
  {
    var m := (2 * n + 100) / 200;
    assert 200 * m <= 2 * n + 100 < 200 * m + 200;
    assert 200.0 * (m as real) <= 2.0 * (n as real) + 100.0;
    assert 2.0 * (n as real) + 100.0 < 200.0 * (m as real) + 200.0;
  }

  /** A significand below 2^53 as it is, or 2^53 carried into the next scale: either way m when scaled by 2^k. */
  lemma CarriedScales(f: Double, m: nat, k: nat)
    requires m <= TWO_53 && f == if m < TWO_53 then Double(m, k) else Double(TWO_52, k - 1)
    ensures Scaled(Value(f), k) == m as real
  {
    ScaledAgain(f.significand as real, -f.shift, k);
    if m == TWO_53 {
      assert Scaled(TWO_52 as real, 1) == 2.0 * Scaled(TWO_52 as real, 0);
    }
  }

  lemma PositiveIsNearest(c: nat)
    requires 0 < c < CENTS_BOUND
    ensures IsNearest(PositiveDouble(c), c as real / 100.0)
    ensures Distance(Value(PositiveDouble(c)), c as real / 100.0) * 200.0 < 1.0
  {
    var k, f, x := ScaleOf(c, 0), PositiveDouble(c), c as real / 100.0;
    var n := Doubled(c, k);
    var m := (2 * n + 100) / 200;
    ScaleIsSmall(c);
    CarriedScales(f, m, k);
    ScaledHundredths(c, k);
    RoundedWithinHalf(n);
    ErrorIsSmall(Value(f), x, k);
    forall g | IsDouble(g) ensures Distance(Value(f), x) <= Distance(Value(g), x) {
      ScaledIsClosest(g, k, m, n as real / 100.0);
      ClosestUnscales(Value(f), Value(g), x, k);
    }
  }

  lemma NegatedValue(f: Double)
    ensures Value(Negated(f)) == -Value(f)
  {
    ScaledNegates(f.significand as real, -f.shift);
  }

  /** ToDouble rounds to nearest, and its error is less than half a cent. */
  lemma ToDoubleIsNearest(c: Cents)
    ensures IsNearest(ToDouble(c), c as real / 100.0)
    ensures Distance(Value(ToDouble(c)), c as real / 100.0) * 200.0 < 1.0
  {
    var x := c as real / 100.0;
    if c > 0 {
      PositiveIsNearest(c);
    } else if c < 0 {
      var f := PositiveDouble(-c);
      PositiveIsNearest(-c);
      NegatedValue(f);
      forall g | IsDouble(g) ensures Distance(Value(ToDouble(c)), x) <= Distance(Value(g), x) {
        NegatedValue(g);
        assert IsDouble(Negated(g));
        assert Distance(Value(f), -x) <= Distance(Value(Negated(g)), -x);
      }
    }
  }

  // ---------------------------------------------------------------- two-decimal text

  /** strconv.FormatFloat(f, 'f', 2, 64) keeps the nearest number of hundredths. */
  function PrintedHundredths(v: real): int {
    if v < 0.0 then -((-v * 100.0 + 0.5).Floor) else (v * 100.0 + 0.5).Floor
  }

  /** Whatever way ties are broken, a correctly rounded float64 of a stored amount prints as that amount. */
  lemma NearestDoublePrintsExactly(c: Cents, f: Double)
    requires IsNearest(f, c as real / 100.0)
    ensures PrintedHundredths(Value(f)) == c
  {
    ToDoubleIsNearest(c);
    assert Distance(Value(f), c as real / 100.0) <= Distance(Value(ToDouble(c)), c as real / 100.0);
    var v := Value(f);
    assert -1.0 < v * 200.0 - 2.0 * (c as real) < 1.0;
  }

  function DigitChar(d: nat): char
    requires d < 10
  {
    '0' + d as char
  }

  predicate IsDigit(c: char) {
    '0' <= c <= '9'
  }

  function DigitValue(c: char): nat
    requires IsDigit(c)
  {
    (c - '0') as nat
  }

  /** A number without leading zeros. */
  function Numeral(n: nat): (text: string)
    ensures |text| > 0 && forall i :: 0 <= i < |text| ==> IsDigit(text[i])
  {
    if n < 10 then [DigitChar(n)] else Numeral(n / 10) + [DigitChar(n % 10)]
  }

  /** The number a run of digits stands for. */
  function NumeralValue(digits: string): nat
    requires forall i :: 0 <= i < |digits| ==> IsDigit(digits[i])
  {
    if digits == [] then 0
    else NumeralValue(digits[..|digits| - 1]) * 10 + DigitValue(digits[|digits| - 1])
  }

  function UnsignedText(n: nat): string {
    Numeral(n / 100) + ['.', DigitChar(n / 10 % 10), DigitChar(n % 10)]
  }

  function Signed(negative: bool, text: string): string {
    if negative then "-" + text else text
  }

  /** A number of cents with two decimals, as FormatFloat prints it. */
  function CentsText(cents: int): string {
    Signed(cents < 0, UnsignedText(if cents < 0 then -cents else cents))
  }

  /** The totalAmount text of an order: through float64 and back to decimal (internal/graph/mappers.go). */
  function AmountText(c: Cents): string {
    CentsText(PrintedHundredths(Value(ToDouble(c))))
  }

  /** The printed amount is the stored amount. */
  lemma AmountTextIsExact(c: Cents)
    ensures AmountText(c) == CentsText(c)
  {
    ToDoubleIsNearest(c);
    NearestDoublePrintsExactly(c, ToDouble(c));
  }

  // ---------------------------------------------------------------- scanning and storing

  /** units / 10^scale */
  datatype Decimal = Decimal(units: int, scale: nat)

  function Pow10(k: nat): (p: nat)
    ensures p > 0
  {
    if k == 0 then 1 else 10 * Pow10(k - 1)
  }

  function FirstDot(s: string): (i: nat)
    ensures i <= |s|
    ensures forall j :: 0 <= j < i ==> s[j] != '.'
    ensures i < |s| ==> s[i] == '.'
  {
    if s == [] || s[0] == '.' then 0 else 1 + FirstDot(s[1..])
  }

  predicate AllDigits(s: string) {
    |s| > 0 && forall i :: 0 <= i < |s| ==> IsDigit(s[i])
  }

  /** An optional sign followed by at least one digit. */
  function ScanInteger(s: string): Option<int> {
    if |s| > 0 && s[0] == '-' then
      if AllDigits(s[1..]) then Some(-(NumeralValue(s[1..]) as int)) else None
    else if |s| > 0 && s[0] == '+' then
      if AllDigits(s[1..]) then Some(NumeralValue(s[1..])) else None
    else if AllDigits(s) then Some(NumeralValue(s))
    else None
  }

  /** Numeric.Scan on finite decimal text: the digits on both sides of the first dot make up one integer. */
  function Scan(s: string): Option<Decimal> {
    var i := FirstDot(s);
    var digits := if i < |s| then s[..i] + s[i + 1..] else s;
    match ScanInteger(digits)
    case None => None
    case Some(units) => Some(Decimal(units, if i < |s| then |s| - i - 1 else 0))
  }

  /** Integer division rounded to nearest, halves away from zero. */
  function RoundedQuotient(n: int, d: nat): int
    requires d > 0
  {
    if n < 0 then -((-2 * n + d) / (2 * d)) else (2 * n + d) / (2 * d)
  }

  function RoundToCents(d: Decimal): int {
    if d.scale <= 2 then d.units * Pow10(2 - d.scale) else RoundedQuotient(d.units, Pow10(d.scale - 2))
  }

  /** What NUMERIC(12,2) keeps of a decimal: two decimals, and no more than ten digits before them. */
  function ToColumn(d: Decimal): Option<Cents> {
    var cents := RoundToCents(d);
    if -CENTS_BOUND < cents < CENTS_BOUND then Some(cents) else None
  }

  lemma RoundedQuotientIsNearest(n: int, d: nat)
    requires d > 0
    ensures var twice := 2 * (RoundedQuotient(n, d) * d - n);
            -(d as int) <= twice <= d && (twice == d ==> n > 0) && (twice == -(d as int) ==> n < 0)
  {
    var m := if n < 0 then -n else n;
    var q := (2 * m + d) / (2 * d);
    assert 2 * d * q <= 2 * m + d < 2 * d * q + 2 * d;
    assert RoundedQuotient(n, d) * d == if n < 0 then -(q * d) else q * d;
  }

  lemma {:induction false} Pow10Adds(j: nat, k: nat)
    ensures Pow10(j + k) == Pow10(j) * Pow10(k)
    decreases k
  {
    if k == 0 {
    } else {
      Pow10Adds(j, k - 1);
      assert Pow10(j + k) == 10 * Pow10(j + k - 1);
    }
  }

  /** c cents are the decimal rounded to the nearest cent, halves away from zero. */
  ghost predicate IsRounding(d: Decimal, c: int) {
    var p := Pow10(d.scale);
    var twice := 2 * (c * p - 100 * d.units);
    && -(p as int) <= twice <= p
    && (twice == p ==> d.units > 0)
    && (twice == -(p as int) ==> d.units < 0)
  }

  lemma RoundToCentsRounds(d: Decimal)
    ensures IsRounding(d, RoundToCents(d))
  {
    var c := RoundToCents(d);
    assert Pow10(2) == 100;
    if d.scale <= 2 {
      var q, p := Pow10(2 - d.scale), Pow10(d.scale);
      Pow10Adds(2 - d.scale, d.scale);
      RegroupIntegers(d.units, q, p);
    } else {
      var q := Pow10(d.scale - 2);
      Pow10Adds(2, d.scale - 2);
      RoundedQuotientIsNearest(d.units, q);
      RegroupIntegers(c, q, 100);
    }
  }

  lemma MultiplesGrow(a: int, b: int, p: nat)
    requires a <= b
    ensures a * p <= b * p
  {
  }

  lemma MultiplesApart(a: int, b: int, p: nat)
    ensures a >= b + 1 ==> a * p - b * p >= p
    ensures a >= b + 2 ==> a * p - b * p >= 2 * p
  {
    assert (b + 1) * p == b * p + p && (b + 2) * p == b * p + 2 * p;
    if a >= b + 1 {
      MultiplesGrow(b + 1, a, p);
    }
    if a >= b + 2 {
      MultiplesGrow(b + 2, a, p);
    }
  }

  lemma RoundingIsUnique(d: Decimal, a: int, b: int)
    requires IsRounding(d, a) && IsRounding(d, b)
    ensures a == b
  {
    var p := Pow10(d.scale);
    MultiplesApart(a, b, p);
    MultiplesApart(b, a, p);
  }

  /** The column keeps the rounding if it has no more than ten digits before the dot, and refuses it otherwise. */
  lemma ColumnRounds(d: Decimal, c: Cents)
    ensures ToColumn(d) == Some(c) <==> IsRounding(d, c)
    ensures ToColumn(d).Some? <==>
      exists cents :: -1_000_000_000_000 < cents < 1_000_000_000_000 && IsRounding(d, cents)
  {
    RoundToCentsRounds(d);
    if cents :| -1_000_000_000_000 < cents < 1_000_000_000_000 && IsRounding(d, cents) {
      RoundingIsUnique(d, cents, RoundToCents(d));
    }
    if IsRounding(d, c) {
      RoundingIsUnique(d, c, RoundToCents(d));
    }
  }

  lemma RegroupIntegers(a: int, b: int, c: int)
    ensures (a * b) * c == a * (b * c)
  {
  }

  lemma {:induction false} NumeralReads(n: nat)
    ensures NumeralValue(Numeral(n)) == n
  {
    if n >= 10 {
      NumeralReads(n / 10);
      assert Numeral(n)[..|Numeral(n)| - 1] == Numeral(n / 10);
    }
  }

  lemma NumeralValueAppends(digits: string, d: nat)
    requires forall i :: 0 <= i < |digits| ==> IsDigit(digits[i])
    requires d < 10
    ensures NumeralValue(digits + [DigitChar(d)]) == NumeralValue(digits) * 10 + d
  {
    assert (digits + [DigitChar(d)])[..|digits|] == digits;
  }

  /** The digits of the two-decimal text, without the dot, read as the number of cents. */
  lemma UnsignedDigitsRead(n: nat)
    ensures var digits := Numeral(n / 100) + [DigitChar(n / 10 % 10), DigitChar(n % 10)];
            AllDigits(digits) && NumeralValue(digits) == n
  {
    var whole := Numeral(n / 100);
    NumeralReads(n / 100);
    NumeralValueAppends(whole, n / 10 % 10);
    NumeralValueAppends(whole + [DigitChar(n / 10 % 10)], n % 10);
    assert whole + [DigitChar(n / 10 % 10), DigitChar(n % 10)]
        == whole + [DigitChar(n / 10 % 10)] + [DigitChar(n % 10)];
    assert (n / 100) * 10 + n / 10 % 10 == n / 10;
  }

  lemma FirstDotIsUnique(s: string, i: nat)
    requires i < |s| && s[i] == '.' && forall j :: 0 <= j < i ==> s[j] != '.'
    ensures FirstDot(s) == i
  {
  }

  lemma ScanIntegerReadsSign(negative: bool, digits: string)
    requires AllDigits(digits)
    ensures ScanInteger(Signed(negative, digits))
         == Some(if negative then -(NumeralValue(digits) as int) else NumeralValue(digits))
  {
    assert ("-" + digits)[1..] == digits;
    assert IsDigit(digits[0]);
  }

  lemma ScanAtDot(before: string, after: string)
    requires forall j :: 0 <= j < |before| ==> before[j] != '.'
    ensures Scan(before + "." + after) == match ScanInteger(before + after)
      case None => None
      case Some(units) => Some(Decimal(units, |after|))
  {
    var s := before + "." + after;
    FirstDotIsUnique(s, |before|);
    assert s[..|before|] == before && s[|before| + 1..] == after;
  }

  lemma SignedConcat(negative: bool, a: string, b: string)
    ensures Signed(negative, a + b) == Signed(negative, a) + b
  {
    assert "-" + (a + b) == ("-" + a) + b;
  }

  lemma ScanReadsCentsText(cents: int)
    ensures Scan(CentsText(cents)) == Some(Decimal(cents, 2))
  {
    var negative, n := cents < 0, if cents < 0 then -cents else cents;
    var whole := Numeral(n / 100);
    var fraction := [DigitChar(n / 10 % 10), DigitChar(n % 10)];
    assert UnsignedText(n) == (whole + ".") + fraction;
    SignedConcat(negative, whole + ".", fraction);
    SignedConcat(negative, whole, ".");
    SignedConcat(negative, whole, fraction);
    UnsignedDigitsRead(n);
    ScanIntegerReadsSign(negative, whole + fraction);
    ScanAtDot(Signed(negative, whole), fraction);
  }

  lemma {:induction false} NoLeadingZero(n: nat)
    ensures n > 0 ==> Numeral(n)[0] != '0'
    ensures |Numeral(n)| > 1 ==> n > 0
  {
    if n >= 10 {
      NoLeadingZero(n / 10);
    }
  }

  /** A minus sign for a negative amount only, digits without a leading zero, a dot, and two digits. */
  lemma CentsTextShape(cents: int)
    ensures var text := CentsText(cents); var n := |text|; var start := if cents < 0 then 1 else 0;
            && n >= start + 4
            && (text[0] == '-' <==> cents < 0)
            && text[n - 3] == '.'
            && (forall i :: start <= i < n && i != n - 3 ==> IsDigit(text[i]))
            && (text[start] == '0' ==> n == start + 4)
  {
    var n := if cents < 0 then -cents else cents;
    NoLeadingZero(n / 100);
    var whole := Numeral(n / 100);
    assert UnsignedText(n)[0] == whole[0] && |UnsignedText(n)| == |whole| + 3;
    assert cents < 0 ==> forall i :: 0 < i < |CentsText(cents)| ==> CentsText(cents)[i] == UnsignedText(n)[i - 1];
  }

  /** The text is an optional sign and digits, with a dot before the last d.scale characters or, at scale 0, none. */
  ghost predicate IsWritten(s: string, d: Decimal, sign: string, digits: string) {
    && (sign == "" || sign == "+" || sign == "-")
    && AllDigits(digits)
    && d.units == (if sign == "-" then -(NumeralValue(digits) as int) else NumeralValue(digits))
    && var text := sign + digits;
       || (s == text && d.scale == 0)
       || (d.scale <= |text| && s == text[..|text| - d.scale] + "." + text[|text| - d.scale..])
  }

  ghost predicate Reads(s: string, d: Decimal) {
    exists sign, digits :: IsWritten(s, d, sign, digits)
  }

  lemma SignAndDigits(text: string, units: int) returns (sign: string, digits: string)
    requires ScanInteger(text) == Some(units)
    ensures sign == "" || sign == "+" || sign == "-"
    ensures AllDigits(digits) && text == sign + digits
    ensures units == if sign == "-" then -(NumeralValue(digits) as int) else NumeralValue(digits)
  {
    sign, digits := "", text;
    if text[0] == '-' || text[0] == '+' {
      sign, digits := text[..1], text[1..];
    }
  }

  lemma SignAndDigitsScan(sign: string, digits: string)
    requires (sign == "" || sign == "+" || sign == "-") && AllDigits(digits)
    ensures ScanInteger(sign + digits)
         == Some(if sign == "-" then -(NumeralValue(digits) as int) else NumeralValue(digits))
    ensures forall i :: 0 <= i < |sign + digits| ==> (sign + digits)[i] != '.'
  {
    if sign == "" {
      assert sign + digits == digits && IsDigit(digits[0]);
    } else {
      assert (sign + digits)[1..] == digits && (sign + digits)[0] == sign[0];
    }
  }

  lemma SplitAtDot(s: string, i: nat, text: string)
    requires i < |s| && s[i] == '.' && text == s[..i] + s[i + 1..]
    ensures s == text[..i] + "." + text[i..]
  {
    assert text[..i] == s[..i] && text[i..] == s[i + 1..];
  }

  lemma ScannedIsWritten(s: string, d: Decimal)
    requires Scan(s) == Some(d)
    ensures Reads(s, d)
  {
    var i := FirstDot(s);
    if i < |s| {
      var text := s[..i] + s[i + 1..];
      var sign, digits := SignAndDigits(text, d.units);
      SplitAtDot(s, i, text);
      assert |text| - d.scale == i;
      assert IsWritten(s, d, sign, digits);
    } else {
      var sign, digits := SignAndDigits(s, d.units);
      assert IsWritten(s, d, sign, digits);
    }
  }

  lemma ScanWithoutDot(text: string, units: int)
    requires ScanInteger(text) == Some(units) && forall i :: 0 <= i < |text| ==> text[i] != '.'
    ensures Scan(text) == Some(Decimal(units, 0))
  {
    assert FirstDot(text) == |text|;
  }

  lemma ScanWithDot(text: string, units: int, i: nat)
    requires ScanInteger(text) == Some(units) && forall i :: 0 <= i < |text| ==> text[i] != '.'
    requires i <= |text|
    ensures Scan(text[..i] + "." + text[i..]) == Some(Decimal(units, |text| - i))
  {
    ScanAtDot(text[..i], text[i..]);
    assert text[..i] + text[i..] == text;
  }

  lemma WrittenIsScanned(s: string, d: Decimal, sign: string, digits: string)
    requires IsWritten(s, d, sign, digits)
    ensures Scan(s) == Some(d)
  {
    var text := sign + digits;
    SignAndDigitsScan(sign, digits);
    if s == text && d.scale == 0 {
      ScanWithoutDot(text, d.units);
    } else {
      ScanWithDot(text, d.units, |text| - d.scale);
    }
  }

  /** Exactly the texts of this shape are scanned, each as the decimal it stands for. */
  lemma ScanReads(s: string, d: Decimal)
    ensures Scan(s) == Some(d) <==> Reads(s, d)
  {
    if Scan(s) == Some(d) {
      ScannedIsWritten(s, d);
    }
    if sign, digits :| IsWritten(s, d, sign, digits) {
      WrittenIsScanned(s, d, sign, digits);
    }
  }

  lemma CentsFitColumn(c: Cents)
    ensures ToColumn(Decimal(c, 2)) == Some(c)
  {
    assert Pow10(0) == 1;
  }

  /** The amount text of any stored order, submitted again, is stored as the same number of cents. */
  lemma AmountRoundTrips(c: Cents)
    ensures Scan(AmountText(c)).Some? && ToColumn(Scan(AmountText(c)).value) == Some(c)
  {
    AmountTextIsExact(c);
    ScanReadsCentsText(c);
    CentsFitColumn(c);
  }

  /** Different stored amounts are never printed alike. */
  lemma AmountTextIsInjective(c: Cents, d: Cents)
    requires AmountText(c) == AmountText(d)
    ensures c == d
  {
    AmountRoundTrips(c);
    AmountRoundTrips(d);
  }
}
