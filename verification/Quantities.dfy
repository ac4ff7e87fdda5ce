/** Hexadecimal quantities of the JSON-RPC interface, bounded to 256 bits. */
module Quantities {
  import opened Wrappers
  import opened Positional

  const MAX_UINT256: nat := 0xffff_ffff_ffff_ffff_ffff_ffff_ffff_ffff_ffff_ffff_ffff_ffff_ffff_ffff_ffff_ffff
  const MAX_HEX_DIGITS: nat := 256

  predicate IsUInt256(value: nat) {
    value <= MAX_UINT256
  }

  function HexDigit(c: char): Option<nat> {
    if '0' <= c <= '9' then Some(c as nat - '0' as nat)
    else if 'A' <= c <= 'F' then Some(c as nat - 'A' as nat + 10)
    else if 'a' <= c <= 'f' then Some(c as nat - 'a' as nat + 10)
    else None
  }

  predicate HasPrefix(text: string) {
    |text| >= 2 && text[0] == '0' && (text[1] == 'x' || text[1] == 'X')
  }

  predicate AllHex(digits: string) {
    forall i :: 0 <= i < |digits| ==> HexDigit(digits[i]).Some?
  }

  function HexDigits(digits: string): (values: seq<nat>)
    requires AllHex(digits)
    ensures |values| == |digits| && InBase(16, values)
  {
    seq(|digits|, i requires 0 <= i < |digits| => HexDigit(digits[i]).value)
  }

  /** A hexadecimal quantity, if it has between 1 and 256 digits of which at most 64 are significant. */
  function ParseUInt256(text: string, allowPrefixless: bool): (quantity: Option<nat>)
    ensures quantity.Some? ==> IsUInt256(quantity.value)
  {
    if !HasPrefix(text) && !allowPrefixless then None else
      var digits := if HasPrefix(text) then text[2..] else text;
      if !(1 <= |digits| <= MAX_HEX_DIGITS) || !AllHex(digits) then None else
        var values := HexDigits(digits);
        if |values| - LeadingZeros(values) > 64 then None else
          SixtyFourDigits(values);
          Some(Value(16, values))
  }

  /** A 64-bit word in hexadecimal, with or without a sign. Of the prefixes only the one with a small x is stripped. */
  function ParseWord(text: string): Option<nat> {
    var digits := if |text| >= 2 && text[0] == '0' && text[1] == 'x' then text[2..] else text;
    var isSigned := digits != "" && (digits[0] == '+' || digits[0] == '-');
    var magnitude := if isSigned then digits[1..] else digits;
    if magnitude == "" || !AllHex(magnitude) then None
    else
      var value := Value(16, HexDigits(magnitude));
      if value >= 0x1_0000_0000_0000_0000 || (isSigned && digits[0] == '-' && value != 0) then None else Some(value)
  }

  lemma {:induction false} SixtyFourDigits(values: seq<nat>)
    requires InBase(16, values) && |values| - LeadingZeros(values) <= 64
    ensures IsUInt256(Value(16, values))
  {
    var n := LeadingZeros(values);
    assert values == Zeros(n) + values[n..];
    ZerosAddNothing(16, n, values[n..]);
    ValueBound(16, values[n..]);
    PowMonotone(16, |values| - n, 64);
    SixteenToThe64();
  }

  lemma {:induction false} SixteenToThe64()
    ensures Pow(16, 64) == MAX_UINT256 + 1
  {
    PowDoubles(16, 2, 0x100);
    PowDoubles(16, 4, 0x1_0000);
    PowDoubles(16, 8, 0x1_0000_0000);
    PowDoubles(16, 16, 0x1_0000_0000_0000_0000);
    PowDoubles(16, 32, 0x1_0000_0000_0000_0000_0000_0000_0000_0000);
  }

  // ----- what is read, exactly

  predicate IsHexDigit(c: char) {
    '0' <= c <= '9' || 'a' <= c <= 'f' || 'A' <= c <= 'F'
  }

  /** Letters count in either case. */
  lemma HexDigitIsRead(c: char)
    ensures HexDigit(c).Some? <==> IsHexDigit(c)
    ensures '0' <= c <= '9' ==> HexDigit(c) == Some(c as nat - '0' as nat)
    ensures 'a' <= c <= 'f' ==> HexDigit(c) == Some(10 + c as nat - 'a' as nat)
    ensures 'A' <= c <= 'F' ==> HexDigit(c) == Some(10 + c as nat - 'A' as nat)
  {
  }

  /** The digits of a quantity, after a prefix with an x in either case. */
  function DigitsAfterPrefix(text: string): string {
    if "0x" <= text || "0X" <= text then text[2..] else text
  }

  /** A quantity is accepted exactly if it has a prefix, or needs none, and between 1 and 256 hexadecimal digits that
      denote a number of at most 256 bits; and it is read as that number. */
  lemma {:induction false} QuantityIsRead(text: string, allowPrefixless: bool)
    ensures var digits, quantity := DigitsAfterPrefix(text), ParseUInt256(text, allowPrefixless);
      && (quantity.Some? <==>
            && ("0x" <= text || "0X" <= text || allowPrefixless)
            && 1 <= |digits| <= 256 && (forall i :: 0 <= i < |digits| ==> IsHexDigit(digits[i])) && AllHex(digits)
            && Value(16, HexDigits(digits)) <= MAX_UINT256)
      && (quantity.Some? ==> quantity.value == Value(16, HexDigits(digits)))
  {
    hide Value, HexDigit;
    var digits := DigitsAfterPrefix(text);
    assert HasPrefix(text) <==> "0x" <= text || "0X" <= text;
    forall i | 0 <= i < |digits|
      ensures IsHexDigit(digits[i]) <==> HexDigit(digits[i]).Some?
    {
      HexDigitIsRead(digits[i]);
    }
    if AllHex(digits) {
      var values := HexDigits(digits);
      if |values| - LeadingZeros(values) > 64 {
        MoreIsTooLarge(values);
      } else {
        SixtyFourDigits(values);
      }
    }
  }

  lemma {:induction false} MoreIsTooLarge(values: seq<nat>)
    requires InBase(16, values) && |values| - LeadingZeros(values) > 64
    ensures Value(16, values) > MAX_UINT256
  {
    var n := LeadingZeros(values);
    assert values == Zeros(n) + values[n..];
    ZerosAddNothing(16, n, values[n..]);
    LeadingDigitCounts(values[n..]);
    PowMonotone(16, 64, |values| - n - 1);
    SixteenToThe64();
  }

  lemma {:induction false} LeadingDigitCounts(values: seq<nat>)
    requires values != [] && values[0] != 0
    ensures Value(16, values) >= Pow(16, |values| - 1)
  {
    if |values| > 1 {
      LeadingDigitCounts(values[..|values| - 1]);
    }
  }

  /** A word is read as the number its digits denote, if that fits into 64 bits; only a zero may be negative. */
  lemma {:induction false} WordIsRead(text: string)
    ensures var digits := if "0x" <= text then text[2..] else text;
      var sign := if digits != "" && digits[0] in "+-" then digits[..1] else "";
      var magnitude, word := digits[|sign|..], ParseWord(text);
      && (word.Some? <==>
            && magnitude != "" && AllHex(magnitude) && Value(16, HexDigits(magnitude)) < 0x1_0000_0000_0000_0000
            && (sign == "-" ==> Value(16, HexDigits(magnitude)) == 0))
      && (word.Some? ==> word.value == Value(16, HexDigits(magnitude)))
  {
    hide Value, HexDigits, AllHex;
    assert "0x" <= text <==> |text| >= 2 && text[0] == '0' && text[1] == 'x';
    var digits := if "0x" <= text then text[2..] else text;
    if digits != "" {
      assert digits[..1] == [digits[0]];
    }
  }
}
