/** Wei amounts as decimal gwei: the text the fee editor shows, and the parser of what is typed into it. */
module Gwei {
  import opened Wrappers
  import opened Positional

  const WEI_PER_GWEI: nat := 1_000_000_000
  const PLACES: nat := 9

  predicate IsDigit(c: char) {
    '0' <= c <= '9'
  }

  predicate AllDigits(text: string) {
    forall i :: 0 <= i < |text| ==> IsDigit(text[i])
  }

  function DigitsOf(text: string): (digits: seq<nat>)
    requires AllDigits(text)
    ensures |digits| == |text| && InBase(10, digits)
  {
    seq(|text|, i requires 0 <= i < |text| => text[i] as nat - '0' as nat)
  }

  function TextOf(digits: seq<nat>): (text: string)
    requires InBase(10, digits)
    ensures AllDigits(text) && |text| == |digits|
    ensures DigitsOf(text) == digits
  {
    seq(|digits|, i requires 0 <= i < |digits| => '0' + digits[i] as char)
  }

  function Number(text: string): nat
    requires AllDigits(text)
  {
    Value(10, DigitsOf(text))
  }

  /** The part of `text` before its first point, and the part after it if there is one. */
  function WholePart(text: string): (whole: string)
    ensures |whole| <= |text| && whole == text[..|whole|]
    ensures '.' !in whole
    ensures |whole| < |text| ==> text[|whole|] == '.'
  {
    if text == "" || text[0] == '.' then "" else [text[0]] + WholePart(text[1..])
  }

  function FractionPart(text: string): string {
    if |WholePart(text)| == |text| then "" else text[|WholePart(text)| + 1..]
  }

  /** At most one point, digits otherwise, and at least one of them. */
  predicate IsDecimal(text: string) {
    AllDigits(WholePart(text)) && AllDigits(FractionPart(text)) && WholePart(text) + FractionPart(text) != ""
  }

  /** The decimal without its point: `text` denotes this many units of its last place. */
  function Units(text: string): nat
    requires IsDecimal(text)
  {
    Number(WholePart(text) + FractionPart(text))
  }

  // ----- rounding

  /** The product of two variables, kept out of the solver's arithmetic. */
  function Times(a: nat, b: nat): nat {
    if a == 0 then 0 else Times(a - 1, b) + b
  }

  lemma {:induction false} TimesIsProduct(a: nat, b: nat)
    ensures Times(a, b) == a * b
  {
    if a > 0 {
      TimesIsProduct(a - 1, b);
      assert a * b == (a - 1) * b + b;
    }
  }

  /** x is at most half a unit from n, and exactly half a unit only if `even`. */
  predicate IsNearest(x: nat, n: nat, unit: nat, even: bool) {
    && x + x <= n + n + unit
    && n + n <= x + x + unit
    && (x + x == n + n + unit || n + n == x + x + unit ==> even)
  }

  /** `rounded` is the integer nearest to numerator / denominator, the even one of two. */
  predicate RoundsHalfEven(rounded: nat, numerator: nat, denominator: nat) {
    IsNearest(Times(rounded, denominator), numerator, denominator, rounded % 2 == 0)
  }

  lemma {:induction false} RoundingIsUnique(a: nat, b: nat, numerator: nat, denominator: nat)
    requires denominator > 0
    requires RoundsHalfEven(a, numerator, denominator) && RoundsHalfEven(b, numerator, denominator)
    ensures a == b
  {
    if a < b {
      Apart(a, b, numerator, denominator);
    } else if b < a {
      Apart(b, a, numerator, denominator);
    }
  }

  lemma {:induction false} Apart(a: nat, b: nat, numerator: nat, denominator: nat)
    requires denominator > 0 && a < b
    ensures !(RoundsHalfEven(a, numerator, denominator) && RoundsHalfEven(b, numerator, denominator))
  {
    TimesDifference(a, b, denominator);
    if b == a + 1 {
      assert a % 2 != b % 2;
    }
  }

  lemma {:induction false} TimesDifference(a: nat, b: nat, d: nat)
    requires a < b
    ensures Times(b, d) >= Times(a, d) + d
    ensures b >= a + 2 ==> Times(b, d) >= Times(a, d) + 2 * d
  {
    TimesIsProduct(a, d);
    TimesIsProduct(b, d);
    Gap(a, b, d);
    if b >= a + 2 {
      Gap(a, a + 1, d);
      Gap(a + 1, b, d);
    }
  }

  lemma {:induction false} RoundingScales(rounded: nat, numerator: nat, denominator: nat, scale: nat)
    requires scale > 0 && RoundsHalfEven(rounded, numerator, denominator)
    ensures RoundsHalfEven(rounded, Times(numerator, scale), Times(denominator, scale))
  {
    NearestScales(Times(rounded, denominator), numerator, denominator, rounded % 2 == 0, scale);
    TimesAssociates(rounded, denominator, scale);
  }

  lemma {:induction false} NearestScales(x: nat, n: nat, unit: nat, even: bool, scale: nat)
    requires scale > 0 && IsNearest(x, n, unit, even)
    ensures IsNearest(Times(x, scale), Times(n, scale), Times(unit, scale), even)
  {
    TimesDistributes(x, x, scale);
    TimesDistributes(n, n, scale);
    TimesDistributes(x + x, unit, scale);
    TimesDistributes(n + n, unit, scale);
    TimesCompares(x + x, n + n + unit, scale);
    TimesCompares(n + n, x + x + unit, scale);
  }

  lemma {:induction false} TimesCompares(a: nat, b: nat, c: nat)
    requires c > 0 && a <= b
    ensures Times(a, c) <= Times(b, c)
    ensures Times(a, c) == Times(b, c) ==> a == b
  {
    if a < b {
      TimesDifference(a, b, c);
    }
  }

  lemma {:induction false} TimesAssociates(a: nat, b: nat, c: nat)
    ensures Times(a, Times(b, c)) == Times(Times(a, b), c)
  {
    if a > 0 {
      TimesAssociates(a - 1, b, c);
      TimesDistributes(Times(a - 1, b), b, c);
    }
  }

  lemma {:induction false} TimesDistributes(a: nat, b: nat, c: nat)
    ensures Times(a + b, c) == Times(a, c) + Times(b, c)
  {
    if a > 0 {
      TimesDistributes(a - 1, b, c);
    }
  }

  // ----- printing

  function Decimal(value: nat): (text: string)
    ensures AllDigits(text) && text != ""
  {
    if value == 0 then "0" else TextOf(Numeral(10, value))
  }

  lemma {:induction false} NumberOfDecimal(value: nat)
    ensures Number(Decimal(value)) == value
  {
    if value == 0 {
      assert DigitsOf("0")[..0] == [];
      assert Value(10, [0]) == Value(10, []) * 10 + 0;
      assert DigitsOf("0") == [0];
    } else {
      ValueOfNumeral(10, value);
    }
  }

  /** The text without the zeros it ends with. */
  function Trimmed(text: string): (trimmed: string)
    requires AllDigits(text)
    ensures AllDigits(trimmed) && |trimmed| <= |text|
  {
    if text == "" || text[|text| - 1] != '0' then text else Trimmed(text[..|text| - 1])
  }

  lemma {:induction false} TrimmedNumber(text: string)
    requires AllDigits(text)
    ensures Number(Trimmed(text)) * Pow(10, |text| - |Trimmed(text)|) == Number(text)
  {
    if text != "" && text[|text| - 1] == '0' {
      var front := text[..|text| - 1];
      TrimmedNumber(front);
      assert DigitsOf(text)[..|text| - 1] == DigitsOf(front);
      assert Number(text) == Number(front) * 10;
      var n, k := Number(Trimmed(front)), |front| - |Trimmed(front)|;
      assert Pow(10, k + 1) == 10 * Pow(10, k);
      assert n * (10 * Pow(10, k)) == n * Pow(10, k) * 10;
    }
  }

  function Padded(text: string, places: nat): (padded: string)
    requires AllDigits(text) && |text| <= places
    ensures AllDigits(padded) && |padded| == places
  {
    seq(places - |text|, _ => '0') + text
  }

  lemma {:induction false} PaddedNumber(text: string, places: nat)
    requires AllDigits(text) && |text| <= places
    ensures Number(Padded(text, places)) == Number(text)
  {
    assert DigitsOf(Padded(text, places)) == Zeros(places - |text|) + DigitsOf(text);
    ZerosAddNothing(10, places - |text|, DigitsOf(text));
  }

  function EditableGwei(wei: nat): string {
    var quotient, remainder := wei / WEI_PER_GWEI, wei % WEI_PER_GWEI;
    if remainder == 0 then Decimal(quotient)
    else
      NineDigits(remainder);
      Decimal(quotient) + "." + Trimmed(Padded(Decimal(remainder), PLACES))
  }

  lemma {:induction false} NineDigits(value: nat)
    requires value < WEI_PER_GWEI
    ensures |Decimal(value)| <= PLACES
  {
    if value > 0 && |Decimal(value)| > PLACES {
      var digits := Numeral(10, value);
      ValueOfNumeral(10, value);
      LeadingDigitBound(digits);
      PowMonotone(10, PLACES, |digits| - 1);
      TenToTheNine();
    }
  }

  lemma {:induction false} LeadingDigitBound(digits: seq<nat>)
    requires digits != [] && digits[0] != 0
    ensures Value(10, digits) >= Pow(10, |digits| - 1)
  {
    assert digits == [digits[0]] + digits[1..];
    ValueConcat(10, [digits[0]], digits[1..]);
    assert [digits[0]][..0] == [];
    assert Value(10, [digits[0]]) == Value(10, []) * 10 + digits[0];
    ProductMonotone(1, digits[0], Pow(10, |digits| - 1), Pow(10, |digits| - 1));
  }

  lemma {:induction false} TenToTheNine()
    ensures Pow(10, PLACES) == WEI_PER_GWEI
  {
    PowDoubles(10, 2, 100);
    PowDoubles(10, 4, 10000);
    assert Pow(10, 9) == 10 * Pow(10, 8);
  }

  // ----- parsing

  lemma {:induction false} DigitsConcat(a: string, b: string)
    requires AllDigits(a) && AllDigits(b)
    ensures AllDigits(a + b) && DigitsOf(a + b) == DigitsOf(a) + DigitsOf(b)
  {
  }

  lemma {:induction false} NumberConcat(a: string, b: string)
    requires AllDigits(a) && AllDigits(b)
    ensures AllDigits(a + b)
    ensures Number(a + b) == Times(Number(a), Pow(10, |b|)) + Number(b)
  {
    DigitsConcat(a, b);
    ValueConcat(10, DigitsOf(a), DigitsOf(b));
    TimesIsProduct(Number(a), Pow(10, |b|));
  }

  lemma {:induction false} NumberBound(text: string)
    requires AllDigits(text)
    ensures Number(text) < Pow(10, |text|)
  {
    ValueBound(10, DigitsOf(text));
  }

  lemma {:induction false} NumberOfZeros(text: string)
    requires forall i :: 0 <= i < |text| ==> text[i] == '0'
    ensures AllDigits(text) && Number(text) == 0
  {
    ValueOfZeros(10, DigitsOf(text));
  }

  lemma {:induction false} PositiveNumber(text: string, i: nat)
    requires AllDigits(text) && i < |text| && text[i] != '0'
    ensures Number(text) > 0
  {
    var front := text[..|text| - 1];
    assert DigitsOf(text)[..|text| - 1] == DigitsOf(front);
    if i < |front| {
      PositiveNumber(front, i);
    }
  }

  /** At most nine places: the fraction is padded, and nothing is rounded. */
  lemma {:induction false} PaddedFraction(whole: string, fraction: string, zeros: string)
    requires AllDigits(whole) && AllDigits(fraction) && |fraction| + |zeros| == PLACES
    requires forall i :: 0 <= i < |zeros| ==> zeros[i] == '0'
    ensures AllDigits(fraction + zeros) && AllDigits(whole + fraction)
    ensures RoundsHalfEven(Number(whole) * WEI_PER_GWEI + Number(fraction + zeros),
                           Number(whole + fraction) * WEI_PER_GWEI, Pow(10, |fraction|))
  {
    NumberConcat(whole, fraction);
    NumberOfZeros(zeros);
    NumberConcat(fraction, zeros);
    NinePlacesApart(|zeros|, |fraction|);
    PowPositive(10, |fraction|);
    PaddedNumbers(Number(whole), Number(fraction), Pow(10, |fraction|), Pow(10, |zeros|),
                  Number(fraction + zeros), Number(whole + fraction));
  }

  lemma {:induction false} NinePlacesApart(a: nat, b: nat)
    requires a + b == PLACES
    ensures Times(Pow(10, a), Pow(10, b)) == WEI_PER_GWEI
  {
    PowAdds(10, a, b);
    TenToTheNine();
    TimesIsProduct(Pow(10, a), Pow(10, b));
  }

  lemma {:induction false} PaddedNumbers(w: nat, f: nat, p: nat, q: nat, padded: nat, numerator: nat)
    requires Times(q, p) == WEI_PER_GWEI && p > 0
    requires padded == Times(f, q) && numerator == Times(w, p) + f
    ensures RoundsHalfEven(w * WEI_PER_GWEI + padded, numerator * WEI_PER_GWEI, p)
  {
    TimesDistributes(w * WEI_PER_GWEI, padded, p);
    TimesAssociates(f, q, p);
    TimesIsProduct(f, WEI_PER_GWEI);
    TimesScales(w, p, WEI_PER_GWEI);
  }

  lemma {:induction false} TimesScales(a: nat, b: nat, c: nat)
    requires c == WEI_PER_GWEI
    ensures Times(a * c, b) == Times(a, b) * c
  {
    if a > 0 {
      TimesScales(a - 1, b, c);
      TimesDistributes((a - 1) * c, c, b);
      TimesIsProduct(c, b);
    }
  }

  predicate RoundsUp(retained: string, discarded: string)
    requires AllDigits(retained) && AllDigits(discarded) && retained != "" && discarded != ""
  {
    var followingHasValue := exists i :: 1 <= i < |discarded| && discarded[i] != '0';
    var retainedIsOdd := (retained[|retained| - 1] as nat - '0' as nat) % 2 == 1;
    discarded[0] > '5' || (discarded[0] == '5' && (followingHasValue || retainedIsOdd))
  }

  /** The discarded places are more than half a unit, or exactly half of one, as their digits tell. */
  lemma {:induction false} DiscardedIsHalf(discarded: string)
    requires AllDigits(discarded) && discarded != ""
    ensures var x, p := Number(discarded), Pow(10, |discarded|);
      var followingHasValue := exists i :: 1 <= i < |discarded| && discarded[i] != '0';
      && x < p
      && (2 * x > p <==> discarded[0] > '5' || (discarded[0] == '5' && followingHasValue))
      && (2 * x == p <==> discarded[0] == '5' && !followingHasValue)
  {
    var first, rest := [discarded[0]], discarded[1..];
    assert discarded == first + rest;
    NumberConcat(first, rest);
    NumberBound(discarded);
    NumberBound(rest);
    OneDigit(first);
    TimesIsProduct(Number(first), Pow(10, |rest|));
    assert forall i :: 0 <= i < |rest| ==> rest[i] == discarded[i + 1];
    if i :| 1 <= i < |discarded| && discarded[i] != '0' {
      PositiveNumber(rest, i - 1);
    } else {
      NumberOfZeros(rest);
    }
    HalfOf(Number(first), Number(rest), Pow(10, |rest|));
  }

  lemma {:induction false} OneDigit(text: string)
    requires AllDigits(text) && |text| == 1
    ensures Number(text) == text[0] as nat - '0' as nat
  {
    var digits := DigitsOf(text);
    assert digits[..0] == [];
    assert Value(10, digits) == Value(10, []) * 10 + digits[0];
  }

  lemma {:induction false} HalfOf(c: nat, y: nat, q: nat)
    requires y < q
    ensures 2 * (c * q + y) > 10 * q <==> c > 5 || (c == 5 && y > 0)
    ensures 2 * (c * q + y) == 10 * q <==> c == 5 && y == 0
  {
    if c >= 6 {
      assert c * q >= 6 * q;
    } else if c <= 4 {
      assert c * q <= 4 * q;
    }
  }

  lemma {:induction false} LastDigitParity(retained: string)
    requires AllDigits(retained) && retained != ""
    ensures Number(retained) % 2 == (retained[|retained| - 1] as nat - '0' as nat) % 2
  {
    assert Number(retained)
        == Value(10, DigitsOf(retained)[..|retained| - 1]) * 10 + (retained[|retained| - 1] as nat - '0' as nat);
  }

  /** More than nine places: nine are kept and the rest decides how they are rounded. */
  lemma {:induction false} RoundedFraction(kept: string, discarded: string)
    requires AllDigits(kept) && AllDigits(discarded) && kept != "" && discarded != ""
    ensures AllDigits(kept + discarded)
    ensures RoundsHalfEven(Number(kept) + (if RoundsUp(kept, discarded) then 1 else 0),
                           Number(kept + discarded) * WEI_PER_GWEI, Pow(10, |discarded| + PLACES))
  {
    NumberConcat(kept, discarded);
    NinePlaces(|discarded|);
    RoundsUpExactly(kept, discarded);
    RoundedNumbers(Number(kept), Number(discarded), Pow(10, |discarded|), RoundsUp(kept, discarded),
                   Number(kept + discarded), Pow(10, |discarded| + PLACES));
  }

  lemma {:induction false} RoundsUpExactly(kept: string, discarded: string)
    requires AllDigits(kept) && AllDigits(discarded) && kept != "" && discarded != ""
    ensures Number(discarded) < Pow(10, |discarded|)
    ensures RoundsUp(kept, discarded) <==>
      || 2 * Number(discarded) > Pow(10, |discarded|)
      || (2 * Number(discarded) == Pow(10, |discarded|) && Number(kept) % 2 == 1)
  {
    DiscardedIsHalf(discarded);
    LastDigitParity(kept);
  }

  lemma {:induction false} KeptPlaces(whole: string, retained: string)
    requires AllDigits(whole) && AllDigits(retained) && |retained| == PLACES
    ensures AllDigits(whole + retained)
    ensures Number(whole + retained) == Number(whole) * WEI_PER_GWEI + Number(retained)
  {
    NumberConcat(whole, retained);
    TenToTheNine();
    TimesIsProduct(Number(whole), WEI_PER_GWEI);
  }

  lemma {:induction false} NinePlaces(k: nat)
    ensures Pow(10, k + PLACES) == Times(Pow(10, k), WEI_PER_GWEI)
  {
    PowAdds(10, k, PLACES);
    TenToTheNine();
    TimesIsProduct(Pow(10, k), WEI_PER_GWEI);
  }

  lemma {:induction false} RoundedNumbers(base: nat, x: nat, p: nat, up: bool, numerator: nat, denominator: nat)
    requires x < p
    requires up <==> 2 * x > p || (2 * x == p && base % 2 == 1)
    requires numerator == Times(base, p) + x && denominator == Times(p, WEI_PER_GWEI)
    ensures RoundsHalfEven(base + (if up then 1 else 0), numerator * WEI_PER_GWEI, denominator)
  {
    assert Times(base + 1, p) == Times(base, p) + p;
    RoundingScales(base + (if up then 1 else 0), numerator, p, WEI_PER_GWEI);
    TimesIsProduct(numerator, WEI_PER_GWEI);
  }

  function PaddedWei(retained: string): nat
    requires AllDigits(retained) && |retained| <= PLACES
  {
    Number(retained + seq(PLACES - |retained|, _ => '0'))
  }

  lemma {:induction false} WholeRounds(whole: string)
    requires AllDigits(whole)
    ensures RoundsHalfEven(Number(whole) * WEI_PER_GWEI, Number(whole + "") * WEI_PER_GWEI, Pow(10, 0))
  {
    assert whole + "" == whole;
    TimesIsProduct(Number(whole) * WEI_PER_GWEI, 1);
  }

  lemma {:induction false} PaddedRounds(whole: string, fraction: string)
    requires AllDigits(whole) && AllDigits(fraction) && |fraction| <= PLACES
    ensures AllDigits(whole + fraction)
    ensures RoundsHalfEven(Number(whole) * WEI_PER_GWEI + PaddedWei(fraction),
                           Number(whole + fraction) * WEI_PER_GWEI, Pow(10, |fraction|))
  {
    PaddedFraction(whole, fraction, seq(PLACES - |fraction|, _ => '0'));
  }

  lemma {:induction false} RetainedRounds(whole: string, fraction: string, retained: string, discarded: string)
    requires AllDigits(whole) && AllDigits(fraction) && AllDigits(retained) && AllDigits(discarded)
    requires fraction == retained + discarded && |retained| == PLACES && discarded != ""
    ensures AllDigits(whole + fraction)
    ensures RoundsHalfEven(
      Number(whole) * WEI_PER_GWEI + PaddedWei(retained) + (if RoundsUp(retained, discarded) then 1 else 0),
      Number(whole + fraction) * WEI_PER_GWEI, Pow(10, |fraction|))
  {
    assert retained + seq(0, _ => '0') == retained;
    KeptPlaces(whole, retained);
    var kept := whole + retained;
    assert kept[|kept| - 1] == retained[|retained| - 1];
    assert whole + fraction == kept + discarded;
    RoundedFraction(kept, discarded);
  }

  lemma {:induction false} EmptyIsZero()
    ensures Number("") == 0
  {
  }

  method GasPriceWei(text: string) returns (result: Option<nat>)
    ensures result.Some? <==> IsDecimal(text)
    ensures result.Some? ==> IsTextOf(text, result.value)
  {
    hide Number, Pow, PaddedWei, RoundsUp, RoundsHalfEven, WholePart, FractionPart;
    var whole, fraction := WholePart(text), FractionPart(text);
    if !AllDigits(whole) || !AllDigits(fraction) || whole + fraction == "" {
      return None;
    }
    EmptyIsZero();
    var wei: nat := (if whole == "" then 0 else Number(whole)) * WEI_PER_GWEI;
    if fraction == "" {
      WholeRounds(whole);
      return Some(wei);
    }
    var retained := if |fraction| <= PLACES then fraction else fraction[..PLACES];
    var discarded := fraction[|retained|..];
    wei := wei + PaddedWei(retained);
    if discarded == "" {
      PaddedRounds(whole, fraction);
    } else {
      RetainedRounds(whole, fraction, retained, discarded);
      if RoundsUp(retained, discarded) {
        wei := wei + 1;
      }
    }
    return Some(wei);
  }

  // ----- the text of a wei amount is parsed back to it

  ghost predicate IsTextOf(text: string, wei: nat) {
    IsDecimal(text) && RoundsHalfEven(wei, Units(text) * WEI_PER_GWEI, Pow(10, |FractionPart(text)|))
  }

  lemma {:induction false} PrintedIsExact(wei: nat)
    ensures IsTextOf(EditableGwei(wei), wei)
  {
    var quotient, remainder := wei / WEI_PER_GWEI, wei % WEI_PER_GWEI;
    if remainder == 0 {
      WholeIsExact(quotient, wei);
    } else {
      var fraction := PrintedFraction(remainder);
      FractionIsExact(quotient, fraction, remainder, wei);
    }
  }

  lemma {:induction false} WholeIsExact(quotient: nat, wei: nat)
    requires wei == quotient * WEI_PER_GWEI
    ensures IsTextOf(Decimal(quotient), wei)
  {
    NumberOfDecimal(quotient);
    PartsOf(Decimal(quotient), "", Decimal(quotient));
    WholeRounds(Decimal(quotient));
  }

  lemma {:induction false} FractionIsExact(quotient: nat, fraction: string, remainder: nat, wei: nat)
    requires wei == quotient * WEI_PER_GWEI + remainder
    requires AllDigits(fraction) && |fraction| <= PLACES && PaddedWei(fraction) == remainder
    ensures IsTextOf(Decimal(quotient) + "." + fraction, wei)
  {
    hide Decimal, PaddedWei;
    NumberOfDecimal(quotient);
    PartsOf(Decimal(quotient), fraction, Decimal(quotient) + "." + fraction);
    PaddedRounds(Decimal(quotient), fraction);
  }

  lemma {:induction false} PrintedFraction(remainder: nat) returns (fraction: string)
    requires remainder < WEI_PER_GWEI
    ensures |Decimal(remainder)| <= PLACES
    ensures fraction == Trimmed(Padded(Decimal(remainder), PLACES))
    ensures PaddedWei(fraction) == remainder
  {
    NineDigits(remainder);
    var padded := Padded(Decimal(remainder), PLACES);
    fraction := Trimmed(padded);
    NumberOfDecimal(remainder);
    PaddedNumber(Decimal(remainder), PLACES);
    TrimmedThenPadded(padded, fraction, seq(PLACES - |fraction|, _ => '0'));
  }

  lemma {:induction false} TrimmedThenPadded(padded: string, fraction: string, zeros: string)
    requires AllDigits(padded) && fraction == Trimmed(padded) && |fraction| + |zeros| == |padded|
    requires forall i :: 0 <= i < |zeros| ==> zeros[i] == '0'
    ensures AllDigits(fraction + zeros) && Number(fraction + zeros) == Number(padded)
  {
    TrimmedNumber(padded);
    NumberOfZeros(zeros);
    NumberConcat(fraction, zeros);
    TimesIsProduct(Number(fraction), Pow(10, |zeros|));
  }

  lemma {:induction false} PartsOf(whole: string, fraction: string, text: string)
    requires AllDigits(whole) && AllDigits(fraction)
    requires text == whole + "." + fraction || (fraction == "" && text == whole)
    ensures WholePart(text) == whole && FractionPart(text) == fraction
  {
    WholePartIs(text, whole);
  }

  lemma {:induction false} WholePartIs(text: string, whole: string)
    requires |whole| <= |text| && text[..|whole|] == whole && '.' !in whole
    requires |whole| < |text| ==> text[|whole|] == '.'
    ensures WholePart(text) == whole
  {
  }

  method PrintAndParse(wei: nat) returns (result: Option<nat>)
    ensures result == Some(wei)
  {
    result := GasPriceWei(EditableGwei(wei));
    PrintedIsExact(wei);
    var text := EditableGwei(wei);
    PowPositive(10, |FractionPart(text)|);
    RoundingIsUnique(result.value, wei, Units(text) * WEI_PER_GWEI, Pow(10, |FractionPart(text)|));
  }

  /** Without needless zeros: none before another digit of the whole part, none after the last place; and a point only
      before a place. */
  predicate IsCanonical(text: string) {
    var whole, fraction := WholePart(text), FractionPart(text);
    && whole != "" && (whole[0] == '0' ==> whole == "0")
    && (fraction == "" ==> text == whole)
    && (fraction != "" ==> fraction[|fraction| - 1] != '0' && |fraction| <= PLACES)
  }

  /** The text that is shown is the shortest way to write the amount. */
  lemma {:induction false} PrintedIsCanonical(wei: nat)
    ensures IsCanonical(EditableGwei(wei))
  {
    var quotient, remainder := wei / WEI_PER_GWEI, wei % WEI_PER_GWEI;
    DecimalIsCanonical(quotient);
    if remainder == 0 {
      PartsOf(Decimal(quotient), "", Decimal(quotient));
    } else {
      var fraction := PrintedFraction(remainder);
      TrimmedEnds(Padded(Decimal(remainder), PLACES));
      if fraction == "" {
        NothingIsPadded();
        assert false;
      }
      PartsOf(Decimal(quotient), fraction, Decimal(quotient) + "." + fraction);
    }
  }

  lemma {:induction false} NothingIsPadded()
    ensures PaddedWei("") == 0
  {
    NumberOfZeros(seq(PLACES, _ => '0'));
    assert "" + seq(PLACES, _ => '0') == seq(PLACES, _ => '0');
  }

  lemma {:induction false} DecimalIsCanonical(value: nat)
    ensures Decimal(value)[0] == '0' ==> Decimal(value) == "0"
  {
  }

  lemma {:induction false} TrimmedEnds(text: string)
    requires AllDigits(text)
    ensures var trimmed := Trimmed(text); trimmed != "" ==> trimmed[|trimmed| - 1] != '0'
  {
    if text != "" && text[|text| - 1] == '0' {
      TrimmedEnds(text[..|text| - 1]);
    }
  }
}
