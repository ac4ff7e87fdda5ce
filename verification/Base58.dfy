/** The Base58 codec of the in-page provider: base conversion in place, in a buffer sized by a decimal ratio. */
module Base58 {
  import opened Wrappers
  import opened Positional

  type byte = n: nat | n < 256

  // The digits in six runs of consecutive characters; '0', 'O', 'I' and 'l' are not among them.
  const ALPHABET: string := "123456789" + "ABCDEFGH" + "JKLMN" + "PQRSTUVWXYZ" + "abcdefghijk" + "mnopqrstuvwxyz"
  const BASE: nat := 58
  const LEADER: char := '1'
  // `>>> 0` reduces a size modulo this.
  const UINT32: nat := 0x1_0000_0000

  datatype Decoded = Bytes(bytes: seq<byte>) | NonBase58Character

  function EncodedSize(n: nat): nat {
    n * 138 / 100 + 1
  }

  function DecodedSize(n: nat): nat {
    n * 733 / 1000 + 1
  }

  /** The position of `c` in the alphabet. */
  function DigitFrom(c: char, i: nat): (digit: Option<nat>)
    requires i <= |ALPHABET|
    ensures digit.Some? ==> i <= digit.value < |ALPHABET| && ALPHABET[digit.value] == c
    ensures digit.None? ==> forall j :: i <= j < |ALPHABET| ==> ALPHABET[j] != c
    decreases |ALPHABET| - i
  {
    if i == |ALPHABET| then None
    else if ALPHABET[i] == c then Some(i)
    else DigitFrom(c, i + 1)
  }

  function DigitOf(c: char): Option<nat> {
    DigitFrom(c, 0)
  }

  predicate OverAlphabet(text: string) {
    forall i :: 0 <= i < |text| ==> DigitOf(text[i]).Some?
  }

  function Digits(text: string): (digits: seq<nat>)
    requires OverAlphabet(text)
    ensures |digits| == |text| && InBase(BASE, digits)
  {
    AlphabetSize();
    seq(|text|, i requires 0 <= i < |text| => DigitOf(text[i]).value)
  }

  function Symbols(digits: seq<nat>): (text: string)
    requires InBase(BASE, digits)
    ensures |text| == |digits|
  {
    AlphabetSize();
    seq(|digits|, i requires 0 <= i < |digits| => ALPHABET[digits[i]])
  }

  /** A leader for every leading zero byte, then the base-58 numeral of the number the bytes spell. */
  function Text(source: seq<byte>): string {
    Symbols(Zeros(LeadingZeros(source)) + Numeral(BASE, Value(256, source)))
  }

  /** A zero byte for every leader, then the base-256 numeral of the number the digits spell. */
  function Source(text: string): (source: seq<byte>)
    requires OverAlphabet(text)
  {
    var digits := Zeros(LeadingZeros(Digits(text))) + Numeral(256, Value(BASE, Digits(text)));
    assert forall i :: 0 <= i < |digits| ==> digits[i] < 256;
    digits
  }

  // ----- the alphabet

  function Run(first: char, count: nat): string
    requires first as int + count < 128
  {
    seq(count, i requires 0 <= i < count => (first as int + i) as char)
  }

  lemma {:induction false} AlphabetSize()
    ensures |ALPHABET| == BASE
    ensures ALPHABET[0] == LEADER
  {
  }

  lemma {:induction false} AlphabetRuns()
    ensures ALPHABET == Run('1', 9) + Run('A', 8) + Run('J', 5) + Run('P', 11) + Run('a', 11) + Run('m', 14)
  {
    assert "123456789" == Run('1', 9);
    assert "ABCDEFGH" == Run('A', 8);
    assert "JKLMN" == Run('J', 5);
    assert "PQRSTUVWXYZ" == Run('P', 11);
    assert "abcdefghijk" == Run('a', 11);
    assert "mnopqrstuvwxyz" == Run('m', 14);
  }

  /** The position of a symbol, from the run it is in. */
  function Rank(c: char): int {
    if c <= '9' then c as int - '1' as int
    else if c <= 'H' then c as int - 'A' as int + 9
    else if c <= 'N' then c as int - 'J' as int + 17
    else if c <= 'Z' then c as int - 'P' as int + 22
    else if c <= 'k' then c as int - 'a' as int + 33
    else c as int - 'm' as int + 44
  }

  lemma {:induction false} RankOfSymbol(digit: nat)
    requires digit < |ALPHABET|
    ensures Rank(ALPHABET[digit]) == digit
  {
    AlphabetRuns();
  }

  predicate IsUnmistakable(c: char) {
    ('1' <= c <= '9' || 'A' <= c <= 'Z' || 'a' <= c <= 'z') && c != 'O' && c != 'I' && c != 'l'
  }

  lemma {:induction false} SymbolIsUnmistakable(digit: nat)
    requires digit < |ALPHABET|
    ensures IsUnmistakable(ALPHABET[digit])
  {
    hide ALPHABET;
    AlphabetRuns();
  }

  lemma {:induction false} UnmistakableIsSymbol(c: char)
    requires IsUnmistakable(c)
    ensures 0 <= Rank(c) < |ALPHABET| && ALPHABET[Rank(c)] == c
  {
    hide ALPHABET;
    AlphabetRuns();
  }

  /** The alphabet is all digits and letters but the four that are easily mistaken for another, in the order of their
      codes. */
  lemma {:induction false} AlphabetIsUnmistakable(c: char, i: nat, j: nat)
    ensures DigitOf(c).Some? <==> IsUnmistakable(c)
    ensures i < j < |ALPHABET| ==> ALPHABET[i] < ALPHABET[j]
  {
    hide ALPHABET;
    if DigitOf(c).Some? {
      SymbolIsUnmistakable(DigitOf(c).value);
    }
    if IsUnmistakable(c) {
      UnmistakableIsSymbol(c);
    }
    if i < j < |ALPHABET| {
      SymbolIsUnmistakable(i);
      SymbolIsUnmistakable(j);
      RankOfSymbol(i);
      RankOfSymbol(j);
    }
  }

  lemma {:induction false} DigitOfLeader()
    ensures DigitOf(LEADER) == Some(0)
  {
    AlphabetSize();
    DigitOfSymbol(0);
  }

  lemma {:induction false} DigitOfSymbol(digit: nat)
    requires digit < |ALPHABET|
    ensures DigitOf(ALPHABET[digit]) == Some(digit)
  {
    RankOfSymbol(digit);
    RankOfSymbol(DigitOf(ALPHABET[digit]).value);
  }

  lemma {:induction false} DigitsOfSymbols(digits: seq<nat>)
    requires InBase(BASE, digits)
    ensures OverAlphabet(Symbols(digits))
    ensures Digits(Symbols(digits)) == digits
  {
    AlphabetSize();
    forall i | 0 <= i < |digits| ensures DigitOf(Symbols(digits)[i]) == Some(digits[i]) {
      DigitOfSymbol(digits[i]);
    }
  }

  lemma {:induction false} SymbolsAppend(digits: seq<nat>, digit: nat)
    requires InBase(BASE, digits) && digit < BASE
    ensures InBase(BASE, digits + [digit]) && |ALPHABET| == BASE
    ensures Symbols(digits + [digit]) == Symbols(digits) + [ALPHABET[digit]]
  {
    AlphabetSize();
  }

  lemma {:induction false} DigitsAppend(text: string, n: nat, digit: nat)
    requires n < |text| && OverAlphabet(text[..n])
    requires DigitOf(text[n]) == Some(digit)
    ensures OverAlphabet(text[..n + 1]) && digit < BASE
    ensures Digits(text[..n + 1]) == Digits(text[..n]) + [digit]
  {
    AlphabetSize();
    assert text[..n + 1] == text[..n] + [text[n]];
  }

  lemma {:induction false} SymbolsOfDigits(text: string)
    requires OverAlphabet(text)
    ensures Symbols(Digits(text)) == text
  {
  }

  // ----- the two round trips, over every byte sequence and every string of the alphabet

  lemma {:induction false} DecodeUndoesEncode(source: seq<byte>)
    ensures OverAlphabet(Text(source))
    ensures Source(Text(source)) == source
  {
    var n, v := LeadingZeros(source), Value(256, source);
    var digits := Zeros(n) + Numeral(BASE, v);
    DigitsOfSymbols(digits);
    ZerosBeforeNumeral(BASE, n, v);
    ZerosThenNumeral(256, source);
  }

  lemma {:induction false} EncodeUndoesDecode(text: string)
    requires OverAlphabet(text)
    ensures Text(Source(text)) == text
  {
    var digits := Digits(text);
    var n, v := LeadingZeros(digits), Value(BASE, digits);
    ZerosBeforeNumeral(256, n, v);
    ZerosThenNumeral(BASE, digits);
    SymbolsOfDigits(text);
  }

  lemma {:induction false} ZerosBeforeNumeral(base: nat, n: nat, v: nat)
    requires base >= 2
    ensures LeadingZeros(Zeros(n) + Numeral(base, v)) == n
    ensures Value(base, Zeros(n) + Numeral(base, v)) == v
  {
    var digits := Zeros(n) + Numeral(base, v);
    LeadingZerosAre(digits, n);
    ZerosAddNothing(base, n, Numeral(base, v));
    ValueOfNumeral(base, v);
  }

  // ----- the buffer sizes suffice

  /** A number of n base-256 digits fits the encoder's buffer, for every n. */
  lemma {:induction false} EncodedSizeSuffices(n: nat)
    ensures Pow(256, n) < Pow(BASE, EncodedSize(n))
  {
    if n > 0 {
      FortyOneBits();
      PowersInRatio(2, BASE, 41, 7, 8 * n, EncodedSize(n));
      assert Pow(2, 8) == 256;
      PowMultiplies(2, 8, n);
    }
  }

  /** A number of n base-58 digits fits the decoder's buffer, for every n. */
  lemma {:induction false} DecodedSizeSuffices(n: nat)
    ensures Pow(BASE, n) < Pow(256, DecodedSize(n))
  {
    if n > 0 {
      var size := DecodedSize(n);
      var bits := 8 * size;
      assert 129 * n <= bits * 22;
      assert Pow(BASE, n) < Pow(2, bits) by {
        TwentyTwoDigits();
        PowersInRatio(BASE, 2, 22, 129, n, bits);
      }
      assert Pow(2, 8) == 256;
      PowMultiplies(2, 8, size);
    }
  }

  lemma {:induction false} FortyOneBits()
    ensures Pow(2, 41) < Pow(58, 7)
  {
    PowDoubles(2, 5, 32);
    PowDoubles(2, 10, 1024);
    PowDoubles(2, 20, 1048576);
    assert Pow(2, 41) == 2 * Pow(2, 40);
    PowDoubles(58, 3, 195112);
    assert Pow(58, 7) == 58 * Pow(58, 6);
  }

  lemma {:induction false} TwentyTwoDigits()
    ensures Pow(58, 22) < Pow(2, 129)
  {
    FiftyEight();
    PowDoubles(58, 11, 24986644000165537792);
    OneTwentyNine();
  }

  lemma {:induction false} FiftyEight()
    ensures Pow(58, 11) == 24986644000165537792
  {
    PowDoubles(58, 2, 3364);
    assert Pow(58, 5) == 58 * Pow(58, 4);
    PowDoubles(58, 5, 656356768);
    assert Pow(58, 11) == 58 * Pow(58, 10);
  }

  lemma {:induction false} OneTwentyNine()
    ensures Pow(2, 129) == 680564733841876926926749214863536422912
  {
    PowDoubles(2, 4, 16);
    PowDoubles(2, 8, 256);
    PowDoubles(2, 16, 65536);
    PowDoubles(2, 32, 4294967296);
    PowDoubles(2, 64, 18446744073709551616);
    assert Pow(2, 129) == 2 * Pow(2, 128);
  }

  // ----- the codec

  /** The first n digits times `factor` plus `carry`, in n digits: what carries out of the first one is dropped. */
  function Multiplied(radix: nat, factor: nat, digits: seq<nat>, n: nat, carry: nat): (result: seq<nat>)
    requires radix >= 2 && n <= |digits|
    ensures |result| == n && InBase(radix, result)
  {
    if n == 0 then [] else
      var sum := carry + factor * digits[n - 1];
      Multiplied(radix, factor, digits, n - 1, sum / radix) + [sum % radix]
  }

  /** Nothing is dropped when the result fits. */
  lemma {:induction false} MultipliedValue(radix: nat, factor: nat, digits: seq<nat>, n: nat, carry: nat)
    requires radix >= 2 && n <= |digits|
    requires Value(radix, digits[..n]) * factor + carry < Pow(radix, n)
    ensures Value(radix, Multiplied(radix, factor, digits, n, carry)) == Value(radix, digits[..n]) * factor + carry
  {
    if n == 0 {
      assert Value(radix, digits[..n]) * factor == 0;
    } else {
      var q, r := LastCarry(radix, factor, digits, n, carry);
      hide Value, Multiplied, Pow;
      CarryAlgebra(radix, factor, Value(radix, digits[..n - 1]), digits[n - 1], carry, q, r, Pow(radix, n - 1),
                   Value(radix, digits[..n]), Value(radix, Multiplied(radix, factor, digits, n - 1, q)),
                   Value(radix, Multiplied(radix, factor, digits, n, carry)));
      MultipliedValue(radix, factor, digits, n - 1, q);
    }
  }

  /** How the last digit goes into the product, and what it carries. */
  lemma {:induction false} LastCarry(radix: nat, factor: nat, digits: seq<nat>, n: nat, carry: nat)
    returns (q: nat, r: nat)
    requires radix >= 2 && 0 < n <= |digits|
    ensures carry + factor * digits[n - 1] == q * radix + r
    ensures Value(radix, Multiplied(radix, factor, digits, n, carry))
         == Value(radix, Multiplied(radix, factor, digits, n - 1, q)) * radix + r
    ensures Value(radix, digits[..n]) == Value(radix, digits[..n - 1]) * radix + digits[n - 1]
    ensures Pow(radix, n) == radix * Pow(radix, n - 1)
  {
    var sum: nat := carry + factor * digits[n - 1];
    q, r := sum / radix, sum % radix;
    var high := Multiplied(radix, factor, digits, n - 1, q);
    assert digits[..n][..n - 1] == digits[..n - 1];
    assert (high + [r])[..n - 1] == high;
  }

  lemma {:induction false} CarryAlgebra(radix: nat, factor: nat, v: nat, last: nat, carry: nat, q: nat, r: nat,
                                        limit: nat, whole: nat, high: nat, product: nat)
    requires carry + factor * last == q * radix + r
    requires whole == v * radix + last && whole * factor + carry < radix * limit
    ensures v * factor + q < limit
    ensures high == v * factor + q && product == high * radix + r ==> product == whole * factor + carry
  {
    assert whole * factor == (v * factor) * radix + factor * last;
    assert (v * factor + q) * radix == (v * factor) * radix + q * radix;
  }

  lemma {:induction false} MultipliedZeros(radix: nat, factor: nat, digits: seq<nat>, n: nat)
    requires radix >= 2 && n <= |digits|
    requires forall i :: 0 <= i < n ==> digits[i] == 0
    ensures Multiplied(radix, factor, digits, n, 0) == digits[..n]
  {
    if n > 0 {
      assert factor * digits[n - 1] == 0;
      MultipliedZeros(radix, factor, digits, n - 1);
    }
  }

  lemma {:induction false} LastTurn(radix: nat, factor: nat, digits: seq<nat>, n: nat, carry: nat)
    requires radix >= 2 && n <= |digits|
    requires n == 0 || (carry == 0 && forall i :: 0 <= i < n ==> digits[i] == 0)
    ensures Multiplied(radix, factor, digits, n, carry) == digits[..n]
  {
    if n > 0 {
      MultipliedZeros(radix, factor, digits, n);
    }
  }

  /** One turn of the carry loop, with `tail` already written. */
  lemma {:induction false} MultipliedStep(radix: nat, factor: nat, digits: seq<nat>, n: nat, carry: nat, tail: seq<nat>)
    requires radix >= 2 && 0 < n <= |digits|
    ensures var sum := carry + factor * digits[n - 1];
      && sum >= 0
      && Multiplied(radix, factor, digits, n, carry) + tail
         == Multiplied(radix, factor, digits, n - 1, sum / radix) + ([sum % radix] + tail)
  {
  }

  /** The inner loop of the encoder: the number in the buffer times 256, plus one more byte. `position` is one above
      the position the loop is to write next, and only the last `length` digits are in use. */
  method TakeByte(encoded: array<nat>, next: nat, length: nat) returns (used: nat)
    requires length <= encoded.Length
    requires forall i :: 0 <= i < encoded.Length - length ==> encoded[i] == 0
    modifies encoded
    ensures used <= encoded.Length
    ensures forall i :: 0 <= i < encoded.Length - used ==> encoded[i] == 0
    ensures encoded[..] == Multiplied(BASE, 256, old(encoded[..]), encoded.Length, next)
  {
    hide Multiplied;
    ghost var was := encoded[..];
    var carry: nat, index: nat, position: nat := next, 0, encoded.Length;
    while (carry != 0 || index < length) && position > 0
      invariant 0 <= position <= encoded.Length && index == encoded.Length - position
      invariant forall i :: 0 <= i < position ==> encoded[i] == was[i]
      invariant Multiplied(BASE, 256, was, encoded.Length, next)
             == Multiplied(BASE, 256, was, position, carry) + encoded[position..]
      decreases position
    {
      ghost var tail := encoded[position..];
      MultipliedStep(BASE, 256, was, position, carry, tail);
      position := position - 1;
      carry := carry + 256 * encoded[position];
      encoded[position] := carry % BASE;
      assert encoded[position..] == [carry % BASE] + tail;
      carry := carry / BASE;
      index := index + 1;
    }
    used := index;
    LastTurn(BASE, 256, was, position, carry);
    assert encoded[..] == encoded[..position] + encoded[position..];
  }

  /** The inner loop of the decoder: the number in the buffer times 58, plus one more digit. */
  method TakeDigit(decoded: array<nat>, digit: nat, length: nat) returns (used: nat)
    requires length <= decoded.Length
    requires forall i :: 0 <= i < decoded.Length - length ==> decoded[i] == 0
    modifies decoded
    ensures used <= decoded.Length
    ensures forall i :: 0 <= i < decoded.Length - used ==> decoded[i] == 0
    ensures decoded[..] == Multiplied(256, BASE, old(decoded[..]), decoded.Length, digit)
  {
    hide Multiplied;
    ghost var was := decoded[..];
    var carry: nat, index: nat, position: nat := digit, 0, decoded.Length;
    while (carry != 0 || index < length) && position > 0
      invariant 0 <= position <= decoded.Length && index == decoded.Length - position
      invariant forall i :: 0 <= i < position ==> decoded[i] == was[i]
      invariant Multiplied(256, BASE, was, decoded.Length, digit)
             == Multiplied(256, BASE, was, position, carry) + decoded[position..]
      decreases position
    {
      ghost var tail := decoded[position..];
      MultipliedStep(256, BASE, was, position, carry, tail);
      position := position - 1;
      carry := carry + BASE * decoded[position];
      decoded[position] := carry % 256;
      assert decoded[position..] == [carry % 256] + tail;
      carry := carry / 256;
      index := index + 1;
    }
    used := index;
    LastTurn(256, BASE, was, position, carry);
    assert decoded[..] == decoded[..position] + decoded[position..];
  }

  /** Skips the zeros a numeral starts with, in a buffer that is zero before `from`. */
  method SkipZeros(buffer: array<nat>, from: nat) returns (position: nat)
    requires from <= buffer.Length
    requires forall i :: 0 <= i < from ==> buffer[i] == 0
    ensures position == LeadingZeros(buffer[..])
  {
    position := from;
    while position < buffer.Length && buffer[position] == 0
      invariant from <= position <= buffer.Length
      invariant forall i :: 0 <= i < position ==> buffer[i] == 0
    {
      position := position + 1;
    }
    LeadingZerosAre(buffer[..], position);
  }

  /** The outer loop of the encoder: from `begin` on, every byte is taken into the number in the buffer. */
  method TakeBytes(source: seq<byte>, begin: nat, encoded: array<nat>) returns (length: nat)
    requires begin <= |source| && forall i :: 0 <= i < begin ==> source[i] == 0
    requires encoded.Length == EncodedSize(|source| - begin)
    requires forall i :: 0 <= i < encoded.Length ==> encoded[i] == 0
    modifies encoded
    ensures InBase(BASE, encoded[..])
    ensures length <= encoded.Length
    ensures forall i :: 0 <= i < encoded.Length - length ==> encoded[i] == 0
    ensures Value(BASE, encoded[..]) == Value(256, source)
  {
    hide Value, Multiplied, EncodedSize;
    length := 0;
    var next := begin;
    ValueOfZeros(256, source[..begin]);
    ValueOfZeros(BASE, encoded[..]);
    while next < |source|
      invariant begin <= next <= |source|
      invariant InBase(BASE, encoded[..])
      invariant length <= encoded.Length
      invariant forall i :: 0 <= i < encoded.Length - length ==> encoded[i] == 0
      invariant Value(BASE, encoded[..]) == Value(256, source[..next])
    {
      ByteTaken(source, begin, next, encoded[..]);
      length := TakeByte(encoded, source[next], length);
      next := next + 1;
    }
    assert source[..next] == source;
  }

  lemma {:induction false} ByteTaken(source: seq<byte>, begin: nat, next: nat, digits: seq<nat>)
    requires begin <= next < |source| && forall i :: 0 <= i < begin ==> source[i] == 0
    requires |digits| == EncodedSize(|source| - begin)
    requires Value(BASE, digits) == Value(256, source[..next])
    ensures Value(BASE, Multiplied(BASE, 256, digits, |digits|, source[next])) == Value(256, source[..next + 1])
  {
    EncodedSizeSuffices(|source| - begin);
    Fits(256, BASE, source, begin, next, |digits|);
    assert digits[..|digits|] == digits;
    MultipliedValue(BASE, 256, digits, |digits|, source[next]);
  }

  lemma {:induction false} EmptyText()
    ensures Text([]) == ""
    ensures Source("") == []
  {
  }

  method Encode(source: seq<byte>) returns (result: string)
    requires EncodedSize(|source|) < UINT32
    ensures result == Text(source)
  {
    hide ALPHABET, Value, Numeral, Symbols, InBase;
    if |source| == 0 {
      EmptyText();
      return "";
    }
    var zeroes := CountZeros(source);
    var size := EncodedSize(|source| - zeroes) % UINT32;
    var encoded := new nat[size](_ => 0);
    var length := TakeBytes(source, zeroes, encoded);
    var position := SkipZeros(encoded, size - length);
    ZerosThenNumeral(BASE, encoded[..]);
    assert encoded[position..] == Numeral(BASE, Value(256, source));
    result := Write(zeroes, encoded, position);
  }

  method CountZeros(source: seq<byte>) returns (zeroes: nat)
    ensures zeroes <= |source| && forall i :: 0 <= i < zeroes ==> source[i] == 0
    ensures zeroes == LeadingZeros(source)
  {
    var begin := 0;
    zeroes := 0;
    while begin < |source| && source[begin] == 0
      invariant 0 <= begin <= |source| && zeroes == begin
      invariant forall i :: 0 <= i < begin ==> source[i] == 0
    {
      begin := begin + 1;
      zeroes := zeroes + 1;
    }
    LeadingZerosAre(source, zeroes);
  }

  /** A leader for every zero byte, then the symbols of the digits in use. */
  method Write(zeroes: nat, encoded: array<nat>, from: nat) returns (result: string)
    requires from <= encoded.Length && InBase(BASE, encoded[..])
    ensures InBase(BASE, Zeros(zeroes) + encoded[from..])
    ensures result == Symbols(Zeros(zeroes) + encoded[from..])
  {
    AlphabetSize();
    result := seq(zeroes, _ => LEADER);
    ghost var written := Zeros(zeroes);
    var position := from;
    while position < encoded.Length
      invariant from <= position <= encoded.Length
      invariant InBase(BASE, written) && written == Zeros(zeroes) + encoded[from..position]
      invariant result == Symbols(written)
    {
      SymbolsAppend(written, encoded[position]);
      result := result + [ALPHABET[encoded[position]]];
      written := written + [encoded[position]];
      position := position + 1;
    }
    assert encoded[from..position] == encoded[from..];
  }

  /** The number grown by one more digit still fits a buffer that can hold every number of the digits past the
      leading zeros. */
  lemma {:induction false} Fits(factor: nat, radix: nat, digits: seq<nat>, zeroes: nat, begin: nat, size: nat)
    requires factor >= 2 && radix >= 2 && InBase(factor, digits)
    requires zeroes <= begin < |digits|
    requires forall i :: 0 <= i < zeroes ==> digits[i] == 0
    requires Pow(factor, |digits| - zeroes) <= Pow(radix, size)
    ensures Value(factor, digits[..begin + 1]) == Value(factor, digits[..begin]) * factor + digits[begin]
         < Pow(radix, size)
  {
    var taken, upTo := digits[zeroes..begin + 1], digits[..begin + 1];
    assert upTo[..begin] == digits[..begin];
    assert Value(factor, upTo) == Value(factor, digits[..begin]) * factor + digits[begin];
    assert Value(factor, upTo) == Value(factor, taken) by {
      assert upTo == digits[..zeroes] + taken;
      ValueConcat(factor, digits[..zeroes], taken);
      ValueOfZeros(factor, digits[..zeroes]);
    }
    ValueBound(factor, taken);
    PowMonotone(factor, |taken|, |digits| - zeroes);
  }

  lemma {:induction false} DigitTaken(value: string, begin: nat, next: nat, digit: nat, bytes: seq<nat>)
    requires begin <= next < |value| && forall i :: 0 <= i < begin ==> value[i] == LEADER
    requires OverAlphabet(value[..next]) && DigitOf(value[next]) == Some(digit)
    requires |bytes| == DecodedSize(|value| - begin)
    requires Value(256, bytes) == Value(BASE, Digits(value[..next]))
    ensures OverAlphabet(value[..next + 1])
    ensures Value(256, Multiplied(256, BASE, bytes, |bytes|, digit)) == Value(BASE, Digits(value[..next + 1]))
  {
    DigitsAppend(value, next, digit);
    var taken := Digits(value[..next]);
    var padded := taken + [digit] + Zeros(|value| - next - 1);
    assert padded[..next] == taken;
    assert padded[..next + 1] == taken + [digit];
    DigitOfLeader();
    DecodedSizeSuffices(|value| - begin);
    Fits(BASE, 256, padded, begin, next, |bytes|);
    assert bytes[..|bytes|] == bytes;
    MultipliedValue(256, BASE, bytes, |bytes|, digit);
  }

  /** The outer loop of the decoder: from `begin` on, every character is taken into the number in the buffer, up to
      the first one outside the alphabet. */
  method TakeCharacters(value: string, begin: nat, decoded: array<nat>) returns (valid: bool, length: nat)
    requires begin <= |value| && forall i :: 0 <= i < begin ==> value[i] == LEADER
    requires decoded.Length == DecodedSize(|value| - begin)
    requires forall i :: 0 <= i < decoded.Length ==> decoded[i] == 0
    modifies decoded
    ensures valid <==> OverAlphabet(value)
    ensures valid ==> InBase(256, decoded[..]) && length <= decoded.Length
    ensures valid ==> forall i :: 0 <= i < decoded.Length - length ==> decoded[i] == 0
    ensures valid ==> Value(256, decoded[..]) == Value(BASE, Digits(value))
  {
    hide Value, Multiplied, DecodedSize, DigitOf;
    length := 0;
    var next := begin;
    DigitOfLeader();
    ValueOfZeros(BASE, Digits(value[..begin]));
    ValueOfZeros(256, decoded[..]);
    while next < |value|
      invariant begin <= next <= |value|
      invariant OverAlphabet(value[..next])
      invariant InBase(256, decoded[..])
      invariant length <= decoded.Length
      invariant forall i :: 0 <= i < decoded.Length - length ==> decoded[i] == 0
      invariant Value(256, decoded[..]) == Value(BASE, Digits(value[..next]))
    {
      var digit := DigitOf(value[next]);
      if digit.None? {
        return false, length;
      }
      DigitTaken(value, begin, next, digit.value, decoded[..]);
      length := TakeDigit(decoded, digit.value, length);
      next := next + 1;
    }
    assert value[..next] == value;
    return true, length;
  }

  method Decode(value: string) returns (result: Decoded)
    requires DecodedSize(|value|) < UINT32
    ensures result.Bytes? <==> OverAlphabet(value)
    ensures result.Bytes? ==> result.bytes == Source(value)
  {
    if |value| == 0 {
      EmptyText();
      return Bytes([]);
    }
    var zeroes := CountLeaders(value);
    var size := DecodedSize(|value| - zeroes) % UINT32;
    var decoded := new nat[size](_ => 0);
    var valid, length := TakeCharacters(value, zeroes, decoded);
    if !valid {
      return NonBase58Character;
    }
    LeadersAreZeros(value, zeroes);
    var position := SkipZeros(decoded, size - length);
    ZerosThenNumeral(256, decoded[..]);
    var bytes := Copy(zeroes, decoded, position);
    return Bytes(bytes);
  }

  method CountLeaders(value: string) returns (zeroes: nat)
    ensures zeroes <= |value| && forall i :: 0 <= i < zeroes ==> value[i] == LEADER
    ensures zeroes < |value| ==> value[zeroes] != LEADER
  {
    var begin := 0;
    zeroes := 0;
    while begin < |value| && value[begin] == LEADER
      invariant 0 <= begin <= |value| && zeroes == begin
      invariant forall i :: 0 <= i < begin ==> value[i] == LEADER
    {
      begin := begin + 1;
      zeroes := zeroes + 1;
    }
  }

  /** A zero byte for every leader, then the digits in use. */
  method Copy(zeroes: nat, decoded: array<nat>, from: nat) returns (bytes: seq<byte>)
    requires from <= decoded.Length && InBase(256, decoded[..])
    ensures bytes == Zeros(zeroes) + decoded[from..]
  {
    var output := new byte[zeroes + (decoded.Length - from)](_ => 0);
    var offset, position := zeroes, from;
    while position < decoded.Length
      invariant from <= position <= decoded.Length && offset == zeroes + (position - from)
      invariant forall i :: 0 <= i < zeroes ==> output[i] == 0
      invariant forall i :: zeroes <= i < offset ==> output[i] == decoded[from + (i - zeroes)]
    {
      output[offset] := decoded[position];
      offset := offset + 1;
      position := position + 1;
    }
    bytes := output[..];
  }

  lemma {:induction false} LeadersAreZeros(value: string, zeroes: nat)
    requires OverAlphabet(value)
    requires zeroes <= |value| && forall i :: 0 <= i < zeroes ==> value[i] == LEADER
    requires zeroes < |value| ==> value[zeroes] != LEADER
    ensures LeadingZeros(Digits(value)) == zeroes
  {
    AlphabetSize();
    DigitOfLeader();
    LeadingZerosAre(Digits(value), zeroes);
  }
}
