/** Positional numerals, most significant digit first, and the powers that bound them. */
module Positional {

  function Pow(base: nat, exponent: nat): nat {
    if exponent == 0 then 1 else base * Pow(base, exponent - 1)
  }

  /** Every digit of `digits` is a digit in `base`. */
  predicate InBase(base: nat, digits: seq<nat>) {
    forall i :: 0 <= i < |digits| ==> digits[i] < base
  }

  /** The number `digits` denotes. */
  function Value(base: nat, digits: seq<nat>): nat {
    if digits == [] then 0 else Value(base, digits[..|digits| - 1]) * base + digits[|digits| - 1]
  }

  /** The shortest numeral of `value`: no leading zero, and nothing at all for zero. */
  function Numeral(base: nat, value: nat): (digits: seq<nat>)
    requires base >= 2
    ensures InBase(base, digits)
    ensures digits != [] ==> digits[0] != 0
    ensures digits == [] <==> value == 0
    decreases value
  {
    if value == 0 then [] else
      QuotientSmaller(value, base);
      Numeral(base, value / base) + [value % base]
  }

  lemma {:induction false} QuotientSmaller(value: nat, base: nat)
    requires base >= 2 && value > 0
    ensures 0 <= value / base < value
    ensures 0 <= value % base < base
    ensures value == (value / base) * base + value % base
    ensures value / base == 0 ==> value % base == value
  {
  }

  lemma {:induction false} ValueOfNumeral(base: nat, value: nat)
    requires base >= 2
    ensures Value(base, Numeral(base, value)) == value
    decreases value
  {
    if value > 0 {
      QuotientSmaller(value, base);
      var rest := Numeral(base, value / base);
      ValueOfNumeral(base, value / base);
      assert (rest + [value % base])[..|rest|] == rest;
    }
  }

  function Zeros(n: nat): seq<nat> {
    seq(n, _ => 0)
  }

  /** The zeros `digits` starts with. */
  function LeadingZeros(digits: seq<nat>): (n: nat)
    ensures n <= |digits|
    ensures forall i :: 0 <= i < n ==> digits[i] == 0
    ensures n < |digits| ==> digits[n] != 0
  {
    if digits == [] || digits[0] != 0 then 0 else 1 + LeadingZeros(digits[1..])
  }

  lemma {:induction false} LeadingZerosAre(digits: seq<nat>, n: nat)
    requires n <= |digits|
    requires forall i :: 0 <= i < n ==> digits[i] == 0
    requires n < |digits| ==> digits[n] != 0
    ensures LeadingZeros(digits) == n
  {
  }

  // ----- powers

  lemma {:induction false} PowPositive(base: nat, exponent: nat)
    requires base > 0
    ensures Pow(base, exponent) > 0
  {
    if exponent > 0 {
      PowPositive(base, exponent - 1);
    }
  }

  lemma {:induction false} PowAdds(base: nat, a: nat, b: nat)
    ensures Pow(base, a + b) == Pow(base, a) * Pow(base, b)
  {
    if a > 0 {
      PowAdds(base, a - 1, b);
      assert Pow(base, a + b) == base * Pow(base, a - 1 + b);
      assert base * (Pow(base, a - 1) * Pow(base, b)) == (base * Pow(base, a - 1)) * Pow(base, b);
    }
  }

  lemma {:induction false} PowMultiplies(base: nat, a: nat, b: nat)
    ensures Pow(base, a * b) == Pow(Pow(base, a), b)
  {
    if b > 0 {
      PowMultiplies(base, a, b - 1);
      PowAdds(base, a, a * (b - 1));
      assert a + a * (b - 1) == a * b;
    }
  }

  lemma {:induction false} PowMonotone(base: nat, a: nat, b: nat)
    requires base > 0 && a <= b
    ensures Pow(base, a) <= Pow(base, b)
  {
    if a < b {
      PowMonotone(base, a, b - 1);
      PowPositive(base, b - 1);
    }
  }

  lemma {:induction false} PowBaseMonotone(x: nat, y: nat, exponent: nat)
    requires x <= y
    ensures Pow(x, exponent) <= Pow(y, exponent)
  {
    if exponent > 0 {
      PowBaseMonotone(x, y, exponent - 1);
      ProductMonotone(x, y, Pow(x, exponent - 1), Pow(y, exponent - 1));
    }
  }

  lemma {:induction false} ProductMonotone(x: nat, y: nat, p: nat, q: nat)
    requires x <= y && p <= q
    ensures x * p <= y * q
  {
    assert x * p <= y * p;
  }

  /** A power is at most another when, raised to some positive exponent, it is. */
  lemma {:induction false} RootMonotone(x: nat, y: nat, exponent: nat)
    requires Pow(x, exponent) < Pow(y, exponent)
    ensures x < y
  {
    if x >= y {
      PowBaseMonotone(y, x, exponent);
    }
  }

  lemma {:induction false} StrictlyIncreasing(x: nat, y: nat, exponent: nat)
    requires x < y && exponent > 0
    ensures Pow(x, exponent) < Pow(y, exponent)
  {
    if exponent == 1 {
      assert Pow(x, 1) == x * Pow(x, 0) == x;
      assert Pow(y, 1) == y * Pow(y, 0) == y;
    } else {
      StrictlyIncreasing(x, y, exponent - 1);
      var p, q := Pow(x, exponent - 1), Pow(y, exponent - 1);
      assert x * p <= x * q < y * q;
    }
  }

  /** Small^a < big^b bounds every other power of `small` by a power of `big` in at least that ratio. */
  lemma {:induction false} PowersInRatio(small: nat, big: nat, a: nat, b: nat, n: nat, m: nat)
    requires n > 0 && big > 0
    requires Pow(small, a) < Pow(big, b)
    requires b * n <= m * a
    ensures Pow(small, n) < Pow(big, m)
  {
    RatioRaised(small, big, a, b, n, m, b * n, m * a);
    RootMonotone(Pow(small, n), Pow(big, m), a);
  }

  lemma {:induction false} RatioRaised(small: nat, big: nat, a: nat, b: nat, n: nat, m: nat, bn: nat, ma: nat)
    requires n > 0 && big > 0
    requires Pow(small, a) < Pow(big, b)
    requires bn == b * n && ma == m * a && bn <= ma
    ensures Pow(Pow(small, n), a) < Pow(Pow(big, m), a)
  {
    PowsCommute(small, n, a);
    StrictlyIncreasing(Pow(small, a), Pow(big, b), n);
    PowMultiplies(big, b, n);
    PowMonotone(big, bn, ma);
    PowMultiplies(big, m, a);
  }

  lemma {:induction false} PowDoubles(base: nat, a: nat, v: nat)
    requires Pow(base, a) == v
    ensures Pow(base, 2 * a) == v * v
  {
    PowAdds(base, a, a);
  }

  lemma {:induction false} PowsCommute(base: nat, a: nat, b: nat)
    ensures Pow(Pow(base, a), b) == Pow(Pow(base, b), a)
  {
    PowMultiplies(base, a, b);
    PowMultiplies(base, b, a);
    assert a * b == b * a;
  }

  // ----- values

  lemma {:induction false} ValueConcat(base: nat, a: seq<nat>, b: seq<nat>)
    ensures Value(base, a + b) == Value(base, a) * Pow(base, |b|) + Value(base, b)
  {
    if b == [] {
      assert a + b == a;
    } else {
      var front, last := b[..|b| - 1], b[|b| - 1];
      ValueConcat(base, a, front);
      assert (a + b)[..|a + b| - 1] == a + front;
      ShiftSum(base, Value(base, a), Pow(base, |front|), Value(base, front));
    }
  }

  lemma {:induction false} ShiftSum(base: nat, v: nat, p: nat, w: nat)
    ensures (v * p + w) * base == v * (base * p) + w * base
  {
    assert v * p * base == v * (base * p);
  }

  lemma {:induction false} ValueOfZeros(base: nat, digits: seq<nat>)
    requires forall i :: 0 <= i < |digits| ==> digits[i] == 0
    ensures Value(base, digits) == 0
  {
    if digits != [] {
      ValueOfZeros(base, digits[..|digits| - 1]);
    }
  }

  lemma {:induction false} ValueBound(base: nat, digits: seq<nat>)
    requires base > 0 && InBase(base, digits)
    ensures Value(base, digits) < Pow(base, |digits|)
  {
    if digits != [] {
      var front := digits[..|digits| - 1];
      ValueBound(base, front);
      assert Value(base, front) * base <= (Pow(base, |front|) - 1) * base;
    }
  }

  /** A numeral without leading zeros is the numeral of its value. */
  lemma {:induction false} NumeralOfValue(base: nat, digits: seq<nat>)
    requires base >= 2 && InBase(base, digits)
    requires digits != [] ==> digits[0] != 0
    ensures Numeral(base, Value(base, digits)) == digits
  {
    if digits != [] {
      var front, last := digits[..|digits| - 1], digits[|digits| - 1];
      NumeralOfValue(base, front);
      NonzeroValue(base, digits);
      var v := Value(base, front);
      DivModOf(v, base, last);
      assert digits == front + [last];
    }
  }

  lemma {:induction false} NonzeroValue(base: nat, digits: seq<nat>)
    requires base >= 2 && digits != [] && digits[0] != 0
    ensures Value(base, digits) > 0
  {
    var front := digits[..|digits| - 1];
    if front != [] {
      NonzeroValue(base, front);
      assert Value(base, front) * base >= 1;
    }
  }

  lemma {:induction false} DivModOf(q: nat, d: nat, r: nat)
    requires r < d
    ensures (q * d + r) / d == q && (q * d + r) % d == r
  {
    var n := q * d + r;
    Quotient(n, d, q, r, n / d, n % d);
  }

  lemma {:induction false} Quotient(n: nat, d: nat, q: nat, r: nat, q': nat, r': nat)
    requires r < d && r' < d
    requires n == q * d + r && n == q' * d + r'
    ensures q == q' && r == r'
  {
    if q' < q {
      Gap(q', q, d);
    } else if q < q' {
      Gap(q, q', d);
    }
  }

  lemma {:induction false} Gap(a: nat, b: nat, d: nat)
    requires a < b
    ensures a * d + d <= b * d
  {
    assert (a + 1) * d <= b * d;
  }

  /** The value with its leading zeros determines a digit string. */
  lemma {:induction false} ZerosThenNumeral(base: nat, digits: seq<nat>)
    requires base >= 2 && InBase(base, digits)
    ensures digits == Zeros(LeadingZeros(digits)) + Numeral(base, Value(base, digits))
  {
    var n := LeadingZeros(digits);
    var rest := digits[n..];
    assert digits == Zeros(n) + rest;
    ZerosAddNothing(base, n, rest);
    NumeralOfValue(base, rest);
  }

  lemma {:induction false} ZerosAddNothing(base: nat, n: nat, digits: seq<nat>)
    ensures Value(base, Zeros(n) + digits) == Value(base, digits)
  {
    ValueConcat(base, Zeros(n), digits);
    ValueOfZeros(base, Zeros(n));
    assert 0 * Pow(base, |digits|) == 0;
  }

  /** A numeral with a leading digit other than zero is at least the power its length stands for. */
  lemma {:induction false} ValueAtLeast(base: nat, digits: seq<nat>)
    requires base >= 2 && digits != [] && digits[0] != 0
    ensures Value(base, digits) >= Pow(base, |digits| - 1)
  {
    if |digits| > 1 {
      var front := digits[..|digits| - 1];
      ValueAtLeast(base, front);
      ProductMonotone(Pow(base, |front| - 1), Value(base, front), base, base);
    }
  }

  /** So a number below a power has no more digits than the power has zeros. */
  lemma {:induction false} NumeralLength(base: nat, value: nat, n: nat)
    requires base >= 2 && value < Pow(base, n)
    ensures |Numeral(base, value)| <= n
  {
    var digits := Numeral(base, value);
    ValueOfNumeral(base, value);
    if |digits| > n {
      ValueAtLeast(base, digits);
      PowMonotone(base, n, |digits| - 1);
    }
  }
}
