/** Positional numerals in any base, most significant digit first, and the
    decimal text Rust prints and parses for a u64. */
module Numerals {
  import opened Prelude

  /** The digits of `n` without leading zeros; none for zero. */
  function Digits(n: nat, base: nat): (ds: seq<nat>)
    requires base >= 2
    decreases n
  {
    if n == 0 then []
    else
      QuotientSmaller(n, base);
      Digits(n / base, base) + [n % base]
  }

  function Value(ds: seq<nat>, base: nat): nat {
    if ds == [] then 0 else Value(ds[..|ds| - 1], base) * base + ds[|ds| - 1]
  }

  predicate AllBelow(ds: seq<nat>, base: nat) {
    forall i :: 0 <= i < |ds| ==> ds[i] < base
  }

  lemma QuotientSmaller(n: nat, base: nat)
    requires base >= 2
    ensures n > 0 ==> n / base < n
  {
    if n > 0 {
      var q, r := n / base, n % base;
      assert n == q * base + r;
      if q >= n {
        assert q * base >= n * 2 by { MulMonotone(n, q, 2, base); }
      }
    }
  }

  lemma MulMonotone(a: nat, b: nat, c: nat, d: nat)
    requires a <= b && c <= d
    ensures a * c <= b * d
  {
    calc {
      a * c;
    <=
      b * c;
    <=
      b * d;
    }
  }

  lemma DivisionIdentity(n: nat, base: nat)
    requires base > 0
    ensures n / base * base + n % base == n
  {
  }

  lemma DivisionOfShifted(q: nat, base: nat, r: nat)
    requires r < base
    ensures (q * base + r) / base == q && (q * base + r) % base == r
  {
    var n := q * base + r;
    var q', r' := n / base, n % base;
    assert n == q' * base + r';
    assert (q + 1) * base == q * base + base && (q' + 1) * base == q' * base + base;
    if q < q' {
      MulMonotone(q + 1, q', base, base);
    } else if q' < q {
      MulMonotone(q' + 1, q, base, base);
    }
  }

  lemma {:induction false} DigitsInRange(n: nat, base: nat)
    requires base >= 2
    ensures AllBelow(Digits(n, base), base)
    ensures n > 0 ==> Digits(n, base) != [] && Digits(n, base)[0] != 0
    decreases n
  {
    if n > 0 {
      QuotientSmaller(n, base);
      DigitsInRange(n / base, base);
    }
  }

  lemma ValueOfAppended(front: seq<nat>, last: nat, base: nat)
    ensures Value(front + [last], base) == Value(front, base) * base + last
  {
    assert (front + [last])[..|front|] == front;
  }

  lemma {:induction false} ValueOfDigits(n: nat, base: nat)
    requires base >= 2
    ensures Value(Digits(n, base), base) == n
    decreases n
  {
    if n > 0 {
      QuotientSmaller(n, base);
      ValueOfDigits(n / base, base);
      var q, r := n / base, n % base;
      ValueOfAppended(Digits(q, base), r, base);
      DivisionIdentity(n, base);
    }
  }

  lemma {:induction false} ValuePositive(ds: seq<nat>, base: nat)
    requires base >= 2 && ds != [] && ds[0] != 0
    ensures Value(ds, base) > 0
  {
    if |ds| > 1 {
      ValuePositive(ds[..|ds| - 1], base);
      MulMonotone(1, Value(ds[..|ds| - 1], base), 1, base);
    } else {
      assert ds[..0] == [];
    }
  }

  lemma {:induction false} DigitsOfValue(ds: seq<nat>, base: nat)
    requires base >= 2 && AllBelow(ds, base)
    requires ds != [] ==> ds[0] != 0
    ensures Digits(Value(ds, base), base) == ds
  {
    if ds != [] {
      var front, last := ds[..|ds| - 1], ds[|ds| - 1];
      ValuePositive(ds, base);
      DigitsOfValue(front, base);
      DivisionOfShifted(Value(front, base), base, last);
      assert ds == front + [last];
    }
  }

  /** Leading zeros carry no value. */
  lemma {:induction false} ValueSkipsZeros(zeros: seq<nat>, ds: seq<nat>, base: nat)
    requires forall i :: 0 <= i < |zeros| ==> zeros[i] == 0
    ensures Value(zeros + ds, base) == Value(ds, base)
  {
    if ds == [] {
      assert zeros + ds == zeros;
      if zeros != [] {
        assert zeros[..|zeros| - 1] + [] == zeros[..|zeros| - 1];
        ValueSkipsZeros(zeros[..|zeros| - 1], [], base);
      }
    } else {
      assert (zeros + ds)[..|zeros + ds| - 1] == zeros + ds[..|ds| - 1];
      ValueSkipsZeros(zeros, ds[..|ds| - 1], base);
    }
  }

  // Decimal text.

  function DigitChar(d: nat): char
    requires d < 10
  {
    ('0' as int + d) as char
  }

  predicate IsDigit(c: char) {
    '0' <= c <= '9'
  }

  function DigitOf(c: char): (d: nat)
    requires IsDigit(c)
    ensures d < 10
  {
    c as int - '0' as int
  }

  /** `to_string` on a u64. */
  function ToDecimal(n: nat): string {
    if n == 0 then "0"
    else
      DigitsInRange(n, 10);
      var ds := Digits(n, 10);
      seq(|ds|, i requires 0 <= i < |ds| => DigitChar(ds[i]))
  }

  predicate AllDigits(s: string) {
    forall i :: 0 <= i < |s| ==> IsDigit(s[i])
  }

  function DigitsIn(s: string): (ds: seq<nat>)
    requires AllDigits(s)
    ensures |ds| == |s| && AllBelow(ds, 10)
  {
    seq(|s|, i requires 0 <= i < |s| => DigitOf(s[i]))
  }

  /** `parse::<u64>`: an optional plus sign, then at least one digit, within range. */
  function ParseU64(s: string): Option<u64> {
    var digits := if s != "" && s[0] == '+' then s[1..] else s;
    if digits == "" || !AllDigits(digits) then None
    else
      var n := Value(DigitsIn(digits), 10);
      if n < U64_LIMIT then Some(n) else None
  }

  lemma DecimalDigits(n: nat)
    ensures ToDecimal(n) != ""
    ensures forall i :: 0 <= i < |ToDecimal(n)| ==> IsDigit(ToDecimal(n)[i])
  {
    DigitsInRange(n, 10);
  }

  lemma DecimalText(n: nat)
    ensures AllDigits(ToDecimal(n)) && Value(DigitsIn(ToDecimal(n)), 10) == n
  {
    DecimalDigits(n);
    if n == 0 {
      assert DigitsIn("0")[..0] == [];
    } else {
      DigitsInRange(n, 10);
      assert DigitsIn(ToDecimal(n)) == Digits(n, 10);
      ValueOfDigits(n, 10);
    }
  }

  /** What `to_string` prints, `parse` reads back. */
  lemma ParseDecimal(n: u64)
    ensures ParseU64(ToDecimal(n)) == Some(n)
  {
    DecimalText(n);
  }

  // What is read as a number.

  function Zeros(k: nat): string {
    seq(k, _ => '0')
  }

  lemma DecimalOfDigits(s: string)
    requires s != "" && AllDigits(s) && (s[0] != '0' || |s| == 1)
    ensures s == ToDecimal(Value(DigitsIn(s), 10))
  {
    var ds := DigitsIn(s);
    if s == "0" {
      assert ds[..0] == [];
    } else {
      ValuePositive(ds, 10);
      DigitsOfValue(ds, 10);
    }
  }

  lemma ValueWithZero(s: string)
    requires s != "" && AllDigits(s) && s[0] == '0'
    ensures Value(DigitsIn(s), 10) == Value(DigitsIn(s[1..]), 10)
  {
    assert DigitsIn(s) == [0] + DigitsIn(s[1..]);
    ValueSkipsZeros([0], DigitsIn(s[1..]), 10);
  }

  lemma OneMoreZero(k: nat, s: string)
    ensures Zeros(k + 1) + s == ['0'] + (Zeros(k) + s)
  {
    assert Zeros(k + 1) == ['0'] + Zeros(k);
  }

  /** A text of digits is the decimal of its value after some zeros. */
  lemma {:induction false} ZerosThenDecimal(s: string) returns (k: nat)
    requires s != "" && AllDigits(s)
    ensures s == Zeros(k) + ToDecimal(Value(DigitsIn(s), 10))
  {
    if s[0] != '0' || |s| == 1 {
      k := 0;
      DecimalOfDigits(s);
    } else {
      var zeros := ZerosThenDecimal(s[1..]);
      ValueWithZero(s);
      OneMoreZero(zeros, ToDecimal(Value(DigitsIn(s), 10)));
      assert s == ['0'] + s[1..];
      k := zeros + 1;
    }
  }

  lemma ValueAfterZeros(k: nat, n: nat)
    ensures AllDigits(Zeros(k) + ToDecimal(n)) && Value(DigitsIn(Zeros(k) + ToDecimal(n)), 10) == n
  {
    DecimalText(n);
    assert AllDigits(Zeros(k));
    assert DigitsIn(Zeros(k) + ToDecimal(n)) == DigitsIn(Zeros(k)) + DigitsIn(ToDecimal(n));
    ValueSkipsZeros(DigitsIn(Zeros(k)), DigitsIn(ToDecimal(n)), 10);
  }

  /** A text is read as a number exactly when it is the number's decimal, after any zeros and a plus sign at most. */
  lemma ReadIff(s: string, n: u64)
    ensures ParseU64(s) == Some(n) <==>
            exists k: nat :: s == Zeros(k) + ToDecimal(n) || s == "+" + (Zeros(k) + ToDecimal(n))
  {
    var digits := if s != "" && s[0] == '+' then s[1..] else s;
    if ParseU64(s) == Some(n) {
      var k := ZerosThenDecimal(digits);
      assert s == digits || s == "+" + digits;
    }
    if k: nat :| s == Zeros(k) + ToDecimal(n) || s == "+" + (Zeros(k) + ToDecimal(n)) {
      ValueAfterZeros(k, n);
      assert digits == Zeros(k) + ToDecimal(n);
    }
  }

  lemma DecimalInjective(m: u64, n: u64)
    requires ToDecimal(m) == ToDecimal(n)
    ensures m == n
  {
    ParseDecimal(m);
    ParseDecimal(n);
  }

  function Power10(k: nat): nat {
    if k == 0 then 1 else 10 * Power10(k - 1)
  }

  lemma {:induction false} DigitCount(n: nat, k: nat)
    requires n < Power10(k)
    ensures |Digits(n, 10)| <= k
    decreases k
  {
    if n > 0 {
      DigitCount(n / 10, k - 1);
    }
  }

  /** A u64 prints in at most 20 characters. */
  lemma DecimalLength(n: u64)
    ensures |ToDecimal(n)| <= 20
  {
    assert Power10(20) > n by {
      assert Power10(5) == 100_000;
      assert Power10(10) == 100_000 * Power10(5) == 10_000_000_000;
      assert Power10(15) == 100_000 * Power10(10);
      assert Power10(20) == 100_000 * Power10(15);
    }
    DigitCount(n, 20);
  }

  /** The largest u64 has twenty digits. */
  lemma LargestDecimal()
    ensures |ToDecimal(U64_LIMIT - 1)| == 20
  {
    assert Power(10, 5) == 100_000;
    PowerSum(10, 5, 5);
    PowerSum(10, 10, 9);
    assert Power(10, 10) == 10_000_000_000 && Power(10, 10) == 10 * Power(10, 9);
    assert Power(10, 20) == 10 * Power(10, 19);
    DigitCountExact(U64_LIMIT - 1, 20);
  }

  lemma {:induction false} DigitCountExact(n: nat, k: nat)
    requires k > 0 && Power(10, k - 1) <= n < Power(10, k)
    ensures |Digits(n, 10)| == k
    decreases k
  {
    assert Power(10, k) == 10 * Power(10, k - 1);
    if k == 1 {
      assert Digits(n / 10, 10) == [];
    } else {
      assert Power(10, k - 1) == 10 * Power(10, k - 2);
      DigitCountExact(n / 10, k - 1);
    }
  }

  function Power(base: nat, k: nat): nat {
    if k == 0 then 1 else base * Power(base, k - 1)
  }

  lemma {:induction false} PowerSum(base: nat, i: nat, j: nat)
    ensures Power(base, i + j) == Power(base, i) * Power(base, j)
    decreases i
  {
    if i > 0 {
      PowerSum(base, i - 1, j);
      MulAssoc(base, Power(base, i - 1), Power(base, j));
    }
  }

  lemma MulAssoc(a: nat, b: nat, c: nat)
    ensures a * (b * c) == (a * b) * c
  {
  }

  lemma DivisionBounds(n: nat, base: nat, low: nat, high: nat)
    requires base >= 2 && low * base <= n < high * base
    ensures low <= n / base < high
  {
    DivisionIdentity(n, base);
    var q, r := n / base, n % base;
    if q < low {
      MulMonotone(q + 1, low, base, base);
    }
    if q >= high {
      MulMonotone(high, q, base, base);
    }
  }

  /** The digits of a number between two neighbouring multiples of a power start with those of the multiple. */
  lemma {:induction false} LeadingDigits(n: nat, base: nat, k: nat, top: nat)
    requires base >= 2 && top > 0 && top * Power(base, k) <= n < (top + 1) * Power(base, k)
    ensures Digits(top, base) <= Digits(n, base)
    decreases k
  {
    if k == 0 {
      assert n == top;
    } else {
      var p := Power(base, k - 1);
      ShiftPower(top, base, p);
      ShiftPower(top + 1, base, p);
      DivisionBounds(n, base, top * p, (top + 1) * p);
      LeadingDigits(n / base, base, k - 1, top);
      assert n > 0;
    }
  }

  lemma ShiftPower(a: nat, base: nat, p: nat)
    ensures a * (base * p) == (a * p) * base
  {
  }

  /** Digits are worth less than the next power. */
  lemma {:induction false} ValueBound(ds: seq<nat>, base: nat)
    requires base >= 2 && AllBelow(ds, base)
    ensures Value(ds, base) < Power(base, |ds|)
    decreases |ds|
  {
    if ds != [] {
      var front := ds[..|ds| - 1];
      ValueBound(front, base);
      BelowNext(Value(front, base), Power(base, |front|), base, ds[|ds| - 1]);
      assert |ds| == |front| + 1;
    }
  }

  lemma BelowNext(v: nat, p: nat, base: nat, last: nat)
    requires v < p && last < base
    ensures v * base + last < base * p
  {
    MulMonotone(v + 1, p, base, base);
  }

  /** The value of digits put after others. */
  lemma {:induction false} ValueOfJoined(a: seq<nat>, b: seq<nat>, base: nat)
    ensures Value(a + b, base) == Value(a, base) * Power(base, |b|) + Value(b, base)
    decreases |b|
  {
    if b == [] {
      assert a + b == a;
    } else {
      var front, last := b[..|b| - 1], b[|b| - 1];
      ValueOfJoined(a, front, base);
      assert a + b == (a + front) + [last];
      ValueOfAppended(a + front, last, base);
      ShiftedSum(Value(a, base), Power(base, |front|), Value(front, base), base, last);
    }
  }

  lemma ShiftedSum(a: nat, p: nat, v: nat, base: nat, last: nat)
    ensures (a * p + v) * base + last == a * (base * p) + (v * base + last)
  {
  }

  lemma PowerTwice(base: nat, k: nat, p: nat)
    requires Power(base, k) == p
    ensures Power(base, k + k) == p * p
  {
    PowerSum(base, k, k);
  }
}
