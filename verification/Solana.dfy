/** Signing a serialized Solana transaction: the compact-length parser, the search for the wallet's signer slot, and
    the signature written in place. */
module Solana {
  import opened Wrappers
  import opened Positional

  type byte = n: nat | n < 256

  // ----- compact lengths

  datatype ShortVec = ShortVec(value: nat, offset: nat)

  /** The length at the start of `bytes`, seven bits a byte and the least significant first, if it ends within `places`
      bytes; with the number of bytes it takes. */
  function Decoded(bytes: seq<byte>, places: nat): (result: Option<ShortVec>)
    ensures result.Some? ==> 1 <= result.value.offset <= |bytes|
    decreases places
  {
    if bytes == [] || places == 0 then None
    else if bytes[0] < 128 then Some(ShortVec(bytes[0], 1))
    else
      var rest := Decoded(bytes[1..], places - 1);
      if rest.None? then None
      else Some(ShortVec(bytes[0] % 128 + 128 * rest.value.value, 1 + rest.value.offset))
  }

  /** The compact encoding of a length. */
  function Encoded(value: nat): (bytes: seq<byte>)
    ensures bytes != []
  {
    if value < 128 then [value] else [128 + value % 128] + Encoded(value / 128)
  }

  /** The first length that needs more than `places` bytes. */
  function Capacity(places: nat): (capacity: nat)
    ensures places > 0 ==> capacity >= 128
  {
    if places == 0 then 0 else if places == 1 then 128 else 128 * Capacity(places - 1)
  }

  /** Five bytes hold every length below 2^35, and no other. */
  lemma {:induction false} FivePlaces()
    ensures Capacity(5) == 0x8_0000_0000
  {
  }

  lemma {:induction false} DecodingUndoesEncoding(value: nat, places: nat, rest: seq<byte>)
    requires value < Capacity(places)
    ensures Decoded(Encoded(value) + rest, places) == Some(ShortVec(value, |Encoded(value)|))
    decreases places
  {
    var bytes := Encoded(value) + rest;
    if value >= 128 {
      assert places > 1;
      assert value / 128 < Capacity(places - 1);
      DecodingUndoesEncoding(value / 128, places - 1, rest);
      assert bytes[1..] == Encoded(value / 128) + rest;
    }
  }

  lemma {:induction false} DecodedIsSmall(bytes: seq<byte>, places: nat)
    requires Decoded(bytes, places).Some?
    ensures Decoded(bytes, places).value.value < Capacity(places)
    decreases places
  {
    if bytes[0] >= 128 {
      assert Decoded(bytes[1..], 0).None?;
      DecodedIsSmall(bytes[1..], places - 1);
    }
  }

  /** The length at `offset`, with the offset after it. */
  function DecodedAt(bytes: seq<byte>, offset: nat): (result: Option<ShortVec>)
    ensures result.Some? ==> offset < result.value.offset <= |bytes|
  {
    if offset > |bytes| || Decoded(bytes[offset..], 5).None? then None
    else
      var length := Decoded(bytes[offset..], 5).value;
      Some(ShortVec(length.value, offset + length.offset))
  }

  /** What is read in all, when the bytes up to `taken` denote `value` and the `rest` counts `scale` fold. */
  function Shifted(rest: Option<ShortVec>, value: nat, scale: nat, taken: nat): (whole: Option<ShortVec>)
    ensures whole.Some? <==> rest.Some?
    ensures whole.Some? ==> whole.value.offset == taken + rest.value.offset
  {
    if rest.None? then None else Some(ShortVec(value + scale * rest.value.value, taken + rest.value.offset))
  }

  /** Reading a length undoes encoding it, for every length below 2^35 and wherever it stands. */
  lemma {:induction false} EncodedLengthIsRead(before: seq<byte>, value: nat, after: seq<byte>)
    requires value < 0x8_0000_0000
    ensures DecodedAt(before + Encoded(value) + after, |before|) == Some(ShortVec(value, |before| + |Encoded(value)|))
  {
    FivePlaces();
    DecodingUndoesEncoding(value, 5, after);
    assert (before + Encoded(value) + after)[|before|..] == Encoded(value) + after;
  }

  /** No length read reaches 2^35, so the arithmetic on doubles is exact. */
  lemma {:induction false} LengthReadIsSmall(bytes: seq<byte>, offset: nat)
    requires DecodedAt(bytes, offset).Some?
    ensures DecodedAt(bytes, offset).value.value < 0x8_0000_0000
  {
    FivePlaces();
    DecodedIsSmall(bytes[offset..], 5);
  }

  /** A length that ends before `end` is read the same from any bytes that agree up to there. */
  lemma {:induction false} LengthIsLocal(a: seq<byte>, b: seq<byte>, places: nat, end: nat)
    requires end <= |a| && end <= |b| && a[..end] == b[..end]
    requires Decoded(a, places).Some? && Decoded(a, places).value.offset <= end
    ensures Decoded(b, places) == Decoded(a, places)
    decreases places
  {
    assert a[0] == a[..end][0] == b[0];
    if a[0] >= 128 {
      assert a[1..][..end - 1] == a[..end][1..] == b[1..][..end - 1];
      LengthIsLocal(a[1..], b[1..], places - 1, end - 1);
    }
  }

  method DecodeShortVec(bytes: seq<byte>, offset: nat) returns (result: Option<ShortVec>)
    ensures result == DecodedAt(bytes, offset)
  {
    var value: nat, shift: nat, cursor: nat := 0, 0, offset;
    ghost var places: nat := 5;
    while cursor < |bytes|
      invariant cursor == offset || offset < cursor <= |bytes|
      invariant shift == 7 * (5 - places) && places <= 5
      invariant cursor <= |bytes| ==>
        DecodedAt(bytes, offset) == Shifted(Decoded(bytes[cursor..], places), value, Pow(2, shift), cursor)
    {
      var element := bytes[cursor];
      ghost var rest := bytes[cursor..];
      ghost var scale := Pow(2, shift);
      cursor := cursor + 1;
      if shift >= 32 {
        NoMorePlaces(rest, places, value, scale, cursor - 1);
        return None;
      }
      OneMorePlace(rest, places, value, scale, cursor - 1);
      assert rest[1..] == bytes[cursor..];
      value := value + (element % 128) * Pow(2, shift);
      if element < 128 {
        return Some(ShortVec(value, cursor));
      }
      SevenMoreBits(shift);
      shift, places := shift + 7, places - 1;
    }
    if cursor <= |bytes| {
      NoMorePlaces(bytes[cursor..], places, value, Pow(2, shift), cursor);
    }
    return None;
  }

  lemma {:induction false} NoMorePlaces(rest: seq<byte>, places: nat, value: nat, scale: nat, taken: nat)
    requires rest == [] || places == 0
    ensures Shifted(Decoded(rest, places), value, scale, taken).None?
  {
  }

  lemma {:induction false} OneMorePlace(rest: seq<byte>, places: nat, value: nat, scale: nat, taken: nat)
    requires rest != [] && places > 0
    ensures (rest[0] % 128) * scale >= 0
    ensures Shifted(Decoded(rest, places), value, scale, taken)
         == if rest[0] < 128
            then Some(ShortVec(value + (rest[0] % 128) * scale, taken + 1))
            else Shifted(Decoded(rest[1..], places - 1), value + (rest[0] % 128) * scale, 128 * scale, taken + 1)
  {
    var tail := Decoded(rest[1..], places - 1);
    if rest[0] >= 128 && tail.Some? {
      ScaleOut(scale, rest[0] % 128, tail.value.value);
    }
  }

  lemma {:induction false} ScaleOut(scale: nat, low: nat, high: nat)
    ensures scale * (low + 128 * high) == low * scale + 128 * scale * high
  {
  }

  lemma {:induction false} SevenMoreBits(shift: nat)
    ensures Pow(2, shift + 7) == 128 * Pow(2, shift)
  {
    PowAdds(2, shift, 7);
    assert Pow(2, 7) == 128;
  }

  // ----- the signer's slot

  /** What a message's header says: how many signatures it needs, and where its account keys start. */
  datatype Layout = Layout(required: nat, keysStart: nat)

  function LayoutOf(message: seq<byte>): (layout: Option<Layout>)
    ensures layout.Some? ==> layout.value.keysStart + 32 * layout.value.required <= |message|
  {
    if message == [] then None
    else if message[0] < 128 then WithKeys(message, message[0], 3)
    else if message[0] % 128 != 0 || |message| < 4 then None
    else WithKeys(message, message[1], 4)
  }

  function WithKeys(message: seq<byte>, required: nat, countOffset: nat): (layout: Option<Layout>)
    ensures layout.Some? ==> layout.value.keysStart + 32 * layout.value.required <= |message|
  {
    var count := DecodedAt(message, countOffset);
    if count.None? || count.value.value < required || count.value.offset + 32 * count.value.value > |message| then None
    else Some(Layout(required, count.value.offset))
  }

  /** Of a well-formed message: the 32 bytes of account `index` are the first 32 of `key`. */
  predicate HoldsKey(message: seq<byte>, layout: Layout, index: nat, key: seq<byte>) {
    var at := layout.keysStart + 32 * index;
    |key| >= 32 && at + 32 <= |message| && message[at..at + 32] == key[..32]
  }

  /** The first required signer, from `index` on, that holds `key`. */
  function FirstSigner(message: seq<byte>, layout: Layout, index: nat, key: seq<byte>): (signer: Option<nat>)
    ensures signer.Some? ==> index <= signer.value < layout.required
    ensures signer.Some? ==> HoldsKey(message, layout, signer.value, key)
    decreases layout.required - index
  {
    if index >= layout.required then None
    else if HoldsKey(message, layout, index, key) then Some(index)
    else FirstSigner(message, layout, index + 1, key)
  }

  /** Only legacy messages, and versioned ones of version 0, are accepted. */
  lemma {:induction false} UnknownVersionsAreRefused(message: seq<byte>)
    requires message != [] && message[0] > 128
    ensures LayoutOf(message).None?
  {
  }

  datatype SignerDetails = SignerDetails(required: nat, index: nat)

  function SignerOf(message: seq<byte>, key: seq<byte>): (signer: Option<SignerDetails>)
    ensures signer.Some? ==> signer.value.index < signer.value.required
  {
    var layout := LayoutOf(message);
    if layout.None? then None
    else
      var signer := FirstSigner(message, layout.value, 0, key);
      if signer.None? then None else Some(SignerDetails(layout.value.required, signer.value))
  }

  method SignerDetailsForMessage(message: seq<byte>, key: seq<byte>) returns (signer: Option<SignerDetails>)
    ensures signer == SignerOf(message, key)
  {
    var layout := ReadLayout(message);
    if layout.None? {
      return None;
    }
    var required, keysStart := layout.value.required, layout.value.keysStart;
    for index := 0 to required
      invariant FirstSigner(message, layout.value, 0, key) == FirstSigner(message, layout.value, index, key)
    {
      var didMatch := KeysMatch(message, keysStart + 32 * index, key);
      if didMatch {
        return Some(SignerDetails(required, index));
      }
    }
    return None;
  }

  method ReadLayout(message: seq<byte>) returns (layout: Option<Layout>)
    ensures layout == LayoutOf(message)
  {
    if |message| == 0 {
      return None;
    }
    var required: nat, countOffset: nat;
    if message[0] < 128 {
      required, countOffset := message[0], 3;
    } else {
      var version := message[0] % 128;
      if version != 0 || |message| < 4 {
        return None;
      }
      required, countOffset := message[1], 4;
    }
    var count := DecodeShortVec(message, countOffset);
    if count.None? || count.value.value < required {
      return None;
    }
    var keysStart, keysLength := count.value.offset, 32 * count.value.value;
    if keysStart + keysLength > |message| {
      return None;
    }
    return Some(Layout(required, keysStart));
  }

  /** The comparison stops at the first byte that differs; a byte beyond the end of a short key always differs. */
  method KeysMatch(message: seq<byte>, at: nat, key: seq<byte>) returns (same: bool)
    requires at + 32 <= |message|
    ensures same <==> |key| >= 32 && message[at..at + 32] == key[..32]
  {
    same := true;
    for i := 0 to 32
      invariant same && i <= |key| && message[at..at + i] == key[..i]
    {
      if i >= |key| || message[at + i] != key[i] {
        assert i < |key| && |key| >= 32 ==> message[at..at + 32][i] != key[..32][i];
        return false;
      }
      assert message[at..at + i + 1] == message[at..at + i] + [message[at + i]];
      assert key[..i + 1] == key[..i] + [key[i]];
    }
  }

  // ----- the transaction

  /** A transaction ready to sign: its bytes, the message to sign, and where the signature goes. */
  datatype Prepared = Prepared(bytes: seq<byte>, message: seq<byte>, signatureOffset: nat)

  function Prepare(transaction: seq<byte>, key: seq<byte>): Option<Prepared> {
    var count := DecodedAt(transaction, 0);
    if count.None? || count.value.value == 0 then None else PrepareWith(transaction, key, count.value)
  }

  function PrepareWith(transaction: seq<byte>, key: seq<byte>, count: ShortVec): (prepared: Option<Prepared>)
    ensures prepared.Some? ==> prepared.value.bytes == transaction
    ensures prepared.Some? ==>
      prepared.value.signatureOffset + 64 + |prepared.value.message| <= |transaction|
  {
    var messageStart := count.offset + 64 * count.value;
    if messageStart >= |transaction| then None
    else
      var signer := SignerOf(transaction[messageStart..], key);
      if signer.None? || signer.value.required != count.value then None
      else Some(Prepared(transaction, transaction[messageStart..], count.offset + 64 * signer.value.index))
  }

  method PreparedStandardTransaction(transaction: seq<byte>, key: seq<byte>) returns (prepared: Option<Prepared>)
    ensures prepared == Prepare(transaction, key)
  {
    var count := DecodeShortVec(transaction, 0);
    if count.None? || count.value.value <= 0 {
      return None;
    }
    prepared := PrepareMessage(transaction, key, count.value);
  }

  method PrepareMessage(transaction: seq<byte>, key: seq<byte>, count: ShortVec) returns (prepared: Option<Prepared>)
    ensures prepared == PrepareWith(transaction, key, count)
  {
    hide LayoutOf, WithKeys, FirstSigner, DecodedAt, Decoded, HoldsKey;
    var messageStart := count.offset + 64 * count.value;
    if messageStart >= |transaction| {
      return None;
    }
    var message := transaction[messageStart..];
    var signer := SignerDetailsForMessage(message, key);
    if signer.None? || count.value != signer.value.required || signer.value.index >= count.value {
      return None;
    }
    return Some(Prepared(transaction, message, count.offset + 64 * signer.value.index));
  }

  /** `bytes` with `signature` written over the 64 bytes at `at`. */
  function Spliced(bytes: seq<byte>, signature: seq<byte>, at: nat): (signed: seq<byte>)
    requires |signature| == 64 && at + 64 <= |bytes|
    ensures |signed| == |bytes|
    ensures forall i :: 0 <= i < |bytes| ==> signed[i] == if at <= i < at + 64 then signature[i - at] else bytes[i]
  {
    bytes[..at] + signature + bytes[at + 64..]
  }

  /** Writes `source` into `target` from index `at` on. */
  method Set(target: array<byte>, source: seq<byte>, at: nat)
    requires |source| == 64 && at + 64 <= target.Length
    modifies target
    ensures target[..] == Spliced(old(target[..]), source, at)
  {
    for i := 0 to 64
      invariant forall k :: 0 <= k < target.Length ==>
        target[k] == if at <= k < at + i then source[k - at] else old(target[k])
    {
      target[at + i] := source[i];
    }
  }

  /** The signed transaction is a fresh copy: the caller's bytes are left alone. */
  method SignTransaction(transaction: array<byte>, key: seq<byte>, signature: seq<byte>)
    returns (signed: array?<byte>)
    requires |signature| == 64
    ensures signed == null <==> Prepare(transaction[..], key).None?
    ensures signed != null ==> fresh(signed) && Signed(transaction[..], key, signature) == Some(signed[..])
  {
    var prepared := PreparedStandardTransaction(transaction[..], key);
    if prepared.None? {
      return null;
    }
    var bytes := prepared.value.bytes;
    signed := new byte[|bytes|](i requires 0 <= i < |bytes| => bytes[i]);
    assert signed[..] == bytes;
    Set(signed, signature, prepared.value.signatureOffset);
  }

  function Signed(transaction: seq<byte>, key: seq<byte>, signature: seq<byte>): Option<seq<byte>>
    requires |signature| == 64
  {
    var prepared := Prepare(transaction, key);
    if prepared.None? then None else Some(Spliced(transaction, signature, prepared.value.signatureOffset))
  }

  // ----- what signing does

  /** `index` is the first required signer that holds `key`. */
  predicate IsFirstSigner(message: seq<byte>, layout: Layout, index: nat, key: seq<byte>) {
    && index < layout.required
    && HoldsKey(message, layout, index, key)
    && forall earlier :: 0 <= earlier < index ==> !HoldsKey(message, layout, earlier, key)
  }

  lemma {:induction false} FirstSignerIsFirst(message: seq<byte>, layout: Layout, index: nat, key: seq<byte>)
    ensures var signer := FirstSigner(message, layout, index, key);
      var end := if signer.Some? then signer.value else layout.required;
      forall i: nat :: index <= i < end ==> !HoldsKey(message, layout, i, key)
    decreases layout.required - index
  {
    if index < layout.required && !HoldsKey(message, layout, index, key) {
      FirstSignerIsFirst(message, layout, index + 1, key);
    }
  }

  /** The signature goes to the first required signer that holds the wallet's key; all the signatures, one for each
      required signer, stand before the message. */
  lemma {:induction false} SignatureGoesToTheFirstSigner(transaction: seq<byte>, key: seq<byte>)
    requires Prepare(transaction, key).Some?
    ensures DecodedAt(transaction, 0).Some?
    ensures var prepared := Prepare(transaction, key).value;
      var count := DecodedAt(transaction, 0).value;
      var layout := LayoutOf(prepared.message);
      && prepared.bytes == transaction
      && layout.Some? && layout.value.required == count.value
      && prepared.message == transaction[count.offset + 64 * count.value..]
      && exists index: nat :: IsFirstSigner(prepared.message, layout.value, index, key)
           && prepared.signatureOffset == count.offset + 64 * index
  {
    hide Decoded;
    var count := DecodedAt(transaction, 0).value;
    var message := transaction[count.offset + 64 * count.value..];
    var layout := LayoutOf(message).value;
    FirstSignerIsFirst(message, layout, 0, key);
    assert IsFirstSigner(message, layout, SignerOf(message, key).value.index, key);
  }

  /** Bytes that differ only between the length and the message are prepared alike, whatever the key. */
  lemma {:induction false} PreparationIgnoresSignatures(a: seq<byte>, b: seq<byte>, key: seq<byte>)
    requires DecodedAt(a, 0).Some? && |a| == |b|
    requires var count := DecodedAt(a, 0).value;
      var messageStart := count.offset + 64 * count.value;
      && a[..count.offset] == b[..count.offset]
      && (messageStart <= |a| ==> a[messageStart..] == b[messageStart..])
    ensures Prepare(b, key).Some? <==> Prepare(a, key).Some?
    ensures Prepare(a, key).Some? ==> Prepare(b, key).value == Prepare(a, key).value.(bytes := b)
  {
    hide Decoded, LayoutOf, FirstSigner;
    assert a[0..] == a && b[0..] == b;
    LengthIsLocal(a, b, 5, DecodedAt(a, 0).value.offset);
  }

  /** Signing puts the signature in its slot and changes no other byte; so the message stays as it was, and every key
      finds the slot it would have found before. */
  lemma {:induction false} SigningChangesOneSlot(transaction: seq<byte>, key: seq<byte>, signature: seq<byte>,
                                                 other: seq<byte>)
    requires |signature| == 64 && Prepare(transaction, key).Some?
    ensures var prepared := Prepare(transaction, key).value;
      var signed := Signed(transaction, key, signature).value;
      var at := prepared.signatureOffset;
      && |signed| == |transaction| && at + 64 + |prepared.message| <= |transaction|
      && signed[..at] == transaction[..at]
      && signed[at..at + 64] == signature
      && signed[at + 64..] == transaction[at + 64..]
      && signed[|signed| - |prepared.message|..] == prepared.message
      && (Prepare(signed, other).Some? <==> Prepare(transaction, other).Some?)
      && (Prepare(signed, other).Some? ==>
            Prepare(signed, other).value == Prepare(transaction, other).value.(bytes := signed))
  {
    hide Decoded, LayoutOf, FirstSigner;
    var count := DecodedAt(transaction, 0).value;
    var signed := Signed(transaction, key, signature).value;
    var at := Prepare(transaction, key).value.signatureOffset;
    var messageStart := count.offset + 64 * count.value;
    assert signed[..count.offset] == transaction[..count.offset];
    assert signed[messageStart..] == transaction[messageStart..];
    PreparationIgnoresSignatures(transaction, signed, other);
  }

  /** Two wallets with different keys sign in different slots, so it does not matter which of them signs first. */
  lemma {:induction false} CosignersCommute(transaction: seq<byte>, a: seq<byte>, b: seq<byte>,
                                            forA: seq<byte>, forB: seq<byte>)
    requires |forA| == 64 && |forB| == 64
    requires Prepare(transaction, a).Some? && Prepare(transaction, b).Some?
    requires a[..32] != b[..32]
    ensures var afterA := Signed(transaction, a, forA).value;
      var afterB := Signed(transaction, b, forB).value;
      Signed(afterA, b, forB).Some? && Signed(afterA, b, forB) == Signed(afterB, a, forA)
  {
    hide Prepare, Spliced;
    SigningChangesOneSlot(transaction, a, forA, b);
    SigningChangesOneSlot(transaction, b, forB, a);
    DifferentKeysUseDifferentSlots(transaction, a, b);
    var slotA, slotB := Prepare(transaction, a).value.signatureOffset, Prepare(transaction, b).value.signatureOffset;
    SplicesCommute(transaction, forA, slotA, forB, slotB);
  }

  lemma {:induction false} DifferentKeysUseDifferentSlots(transaction: seq<byte>, a: seq<byte>, b: seq<byte>)
    requires Prepare(transaction, a).Some? && Prepare(transaction, b).Some?
    requires a[..32] != b[..32]
    ensures var slotA := Prepare(transaction, a).value.signatureOffset;
      var slotB := Prepare(transaction, b).value.signatureOffset;
      slotA + 64 <= slotB || slotB + 64 <= slotA
  {
    hide Prepare, Decoded, LayoutOf;
    SignatureGoesToTheFirstSigner(transaction, a);
    SignatureGoesToTheFirstSigner(transaction, b);
    var message := Prepare(transaction, a).value.message;
    var layout := LayoutOf(message).value;
    var start := DecodedAt(transaction, 0).value.offset;
    var slotA, slotB := Prepare(transaction, a).value.signatureOffset, Prepare(transaction, b).value.signatureOffset;
    var i: nat :| IsFirstSigner(message, layout, i, a) && slotA == start + 64 * i;
    var j: nat :| IsFirstSigner(message, layout, j, b) && slotB == start + 64 * j;
    assert i != j;
  }

  lemma {:induction false} SplicesCommute(bytes: seq<byte>, a: seq<byte>, atA: nat, b: seq<byte>, atB: nat)
    requires |a| == 64 && |b| == 64 && atA + 64 <= |bytes| && atB + 64 <= |bytes|
    requires atA + 64 <= atB || atB + 64 <= atA
    ensures Spliced(Spliced(bytes, a, atA), b, atB) == Spliced(Spliced(bytes, b, atB), a, atA)
  {
  }

  // ----- the wire format

  function Joined(chunks: seq<seq<byte>>): seq<byte> {
    if chunks == [] then [] else chunks[0] + Joined(chunks[1..])
  }

  predicate AllOf(chunks: seq<seq<byte>>, width: nat) {
    forall i :: 0 <= i < |chunks| ==> |chunks[i]| == width
  }

  lemma {:induction false} JoinedLength(chunks: seq<seq<byte>>, width: nat)
    requires AllOf(chunks, width)
    ensures |Joined(chunks)| == width * |chunks|
  {
    if chunks != [] {
      JoinedLength(chunks[1..], width);
      OneChunkMore(width, |chunks| - 1);
    }
  }

  lemma {:induction false} OneChunkMore(width: nat, n: nat)
    ensures width * (n + 1) == width + width * n
  {
  }

  lemma {:induction false} JoinedSplits(chunks: seq<seq<byte>>, n: nat)
    requires n <= |chunks|
    ensures Joined(chunks) == Joined(chunks[..n]) + Joined(chunks[n..])
  {
    if n > 0 {
      JoinedSplits(chunks[1..], n - 1);
      assert chunks[1..][..n - 1] == chunks[..n][1..];
      assert chunks[1..][n - 1..] == chunks[n..];
    } else {
      assert chunks[..0] == [] && chunks[0..] == chunks;
    }
  }

  /** Chunk `i` of equal chunks, wherever they stand, and what replacing it does. */
  lemma {:induction false} JoinedChunk(before: seq<byte>, chunks: seq<seq<byte>>, after: seq<byte>, width: nat, i: nat,
                                       chunk: seq<byte>)
    requires AllOf(chunks, width) && |chunk| == width && i < |chunks|
    ensures var whole := before + Joined(chunks) + after;
      var at := |before| + width * i;
      && at + width <= |whole|
      && whole[at..at + width] == chunks[i]
      && whole[..at] + chunk + whole[at + width..] == before + Joined(chunks[i := chunk]) + after
  {
    hide Joined;
    var left, right := before + Joined(chunks[..i]), Joined(chunks[i + 1..]) + after;
    JoinedAround(chunks, i, chunks[i]);
    JoinedAround(chunks, i, chunk);
    assert chunks[i := chunks[i]] == chunks;
    JoinedLength(chunks[..i], width);
    assert before + Joined(chunks) + after == left + chunks[i] + right;
    assert before + Joined(chunks[i := chunk]) + after == left + chunk + right;
    Middle(left, chunks[i], chunk, right);
  }

  lemma {:induction false} JoinedAround(chunks: seq<seq<byte>>, i: nat, chunk: seq<byte>)
    requires i < |chunks|
    ensures Joined(chunks[i := chunk]) == Joined(chunks[..i]) + chunk + Joined(chunks[i + 1..])
  {
    var changed := chunks[i := chunk];
    JoinedSplits(changed, i);
    assert changed[..i] == chunks[..i] && changed[i..][1..] == chunks[i + 1..];
  }

  lemma {:induction false} Middle(left: seq<byte>, part: seq<byte>, other: seq<byte>, right: seq<byte>)
    requires |part| == |other|
    ensures var whole := left + part + right;
      && whole[|left|..|left| + |part|] == part
      && whole[..|left|] + other + whole[|left| + |part|..] == left + other + right
  {
  }

  /** A message as the wire format lays it out: `start` is the header, preceded by the version byte if it has one. */
  function MessageBytes(versioned: bool, header: seq<byte>, keys: seq<seq<byte>>, rest: seq<byte>): seq<byte> {
    (if versioned then [128] else []) + header + Encoded(|keys|) + Joined(keys) + rest
  }

  function TransactionBytes(signatures: seq<seq<byte>>, message: seq<byte>): seq<byte> {
    Encoded(|signatures|) + Joined(signatures) + message
  }

  /** A three-byte header that starts with the number of signatures, of which a legacy message has fewer than 128; and
      32-byte keys, at least one for each signature. */
  predicate IsMessage(versioned: bool, header: seq<byte>, keys: seq<seq<byte>>) {
    && |header| == 3 && (versioned || header[0] < 128)
    && AllOf(keys, 32) && header[0] <= |keys| < 0x8_0000_0000
  }

  lemma {:induction false} MessageIsLaidOut(versioned: bool, header: seq<byte>, keys: seq<seq<byte>>, rest: seq<byte>,
                                            i: nat, key: seq<byte>)
    requires IsMessage(versioned, header, keys) && |key| == 32
    ensures var message := MessageBytes(versioned, header, keys, rest);
      var layout := LayoutOf(message);
      && message != [] && layout.Some? && layout.value.required == header[0]
      && (i < |keys| ==> (HoldsKey(message, layout.value, i, key) <==> keys[i] == key))
  {
    hide Decoded, Encoded, Joined;
    var message := MessageBytes(versioned, header, keys, rest);
    var start := (if versioned then [128] else []) + header;
    EncodedLengthIsRead(start, |keys|, Joined(keys) + rest);
    assert message == start + Encoded(|keys|) + (Joined(keys) + rest);
    JoinedLength(keys, 32);
    var before := start + Encoded(|keys|);
    assert message == before + Joined(keys) + rest;
    assert LayoutOf(message) == Some(Layout(header[0], |before|));
    if i < |keys| {
      JoinedChunk(before, keys, rest, 32, i, key);
      assert key[..32] == key;
    }
  }

  /** A transaction with one signature for each the message requires. */
  predicate IsTransaction(signatures: seq<seq<byte>>, versioned: bool, header: seq<byte>, keys: seq<seq<byte>>) {
    && IsMessage(versioned, header, keys)
    && AllOf(signatures, 64) && 0 < |signatures| == header[0]
  }

  lemma {:induction false} TransactionIsLaidOut(signatures: seq<seq<byte>>, versioned: bool, header: seq<byte>,
                                                keys: seq<seq<byte>>, rest: seq<byte>, key: seq<byte>)
    requires IsTransaction(signatures, versioned, header, keys) && |key| == 32
    ensures var message := MessageBytes(versioned, header, keys, rest);
      var transaction := TransactionBytes(signatures, message);
      var signer := SignerOf(message, key);
      Prepare(transaction, key)
        == if signer.None? then None
           else Some(Prepared(transaction, message, |Encoded(|signatures|)| + 64 * signer.value.index))
  {
    hide Decoded, Encoded, Joined, FirstSigner, LayoutOf, MessageBytes;
    var message := MessageBytes(versioned, header, keys, rest);
    var transaction := TransactionBytes(signatures, message);
    MessageIsLaidOut(versioned, header, keys, rest, 0, key);
    EncodedLengthIsRead([], |signatures|, Joined(signatures) + message);
    assert transaction == [] + Encoded(|signatures|) + (Joined(signatures) + message);
    JoinedLength(signatures, 64);
    assert transaction[|Encoded(|signatures|)| + 64 * |signatures|..] == message;
  }

  /** In a transaction laid out as the wire format prescribes, signing replaces the signature of the first required
      signer with the wallet's key. */
  lemma {:induction false} SignsForTheWallet(signatures: seq<seq<byte>>, versioned: bool, header: seq<byte>,
                                             keys: seq<seq<byte>>, rest: seq<byte>, key: seq<byte>,
                                             signature: seq<byte>, i: nat)
    requires IsTransaction(signatures, versioned, header, keys) && |key| == 32 && |signature| == 64
    requires i < |signatures| && keys[i] == key && key !in keys[..i]
    ensures var message := MessageBytes(versioned, header, keys, rest);
      Signed(TransactionBytes(signatures, message), key, signature)
        == Some(TransactionBytes(signatures[i := signature], message))
  {
    hide Decoded, Encoded, Joined, FirstSigner, LayoutOf, HoldsKey, Prepare;
    var message := MessageBytes(versioned, header, keys, rest);
    SignerIsFound(versioned, header, keys, rest, key, i);
    TransactionIsLaidOut(signatures, versioned, header, keys, rest, key);
    JoinedChunk(Encoded(|signatures|), signatures, message, 64, i, signature);
  }

  lemma {:induction false} SignerIsFound(versioned: bool, header: seq<byte>, keys: seq<seq<byte>>, rest: seq<byte>,
                                         key: seq<byte>, i: nat)
    requires IsMessage(versioned, header, keys) && |key| == 32
    requires i <= header[0] && key !in keys[..i] && (i < header[0] ==> keys[i] == key)
    ensures SignerOf(MessageBytes(versioned, header, keys, rest), key)
         == if i < header[0] then Some(SignerDetails(header[0], i)) else None
  {
    hide Decoded, Encoded, Joined, FirstSigner, LayoutOf, HoldsKey, MessageBytes;
    var message := MessageBytes(versioned, header, keys, rest);
    MessageIsLaidOut(versioned, header, keys, rest, 0, key);
    var layout := LayoutOf(message).value;
    forall j: nat | j < |keys|
      ensures HoldsKey(message, layout, j, key) <==> keys[j] == key
    {
      MessageIsLaidOut(versioned, header, keys, rest, j, key);
    }
    forall j: nat | j < i
      ensures keys[j] != key
    {
      assert keys[j] == keys[..i][j];
    }
    FirstSignerIsFirst(message, layout, 0, key);
  }

  /** And a wallet whose key is not among the required signers' signs nothing. */
  lemma {:induction false} RefusesForeignTransactions(signatures: seq<seq<byte>>, versioned: bool, header: seq<byte>,
                                                      keys: seq<seq<byte>>, rest: seq<byte>, key: seq<byte>,
                                                      signature: seq<byte>)
    requires IsTransaction(signatures, versioned, header, keys) && |key| == 32 && |signature| == 64
    requires key !in keys[..header[0]]
    ensures Signed(TransactionBytes(signatures, MessageBytes(versioned, header, keys, rest)), key, signature).None?
  {
    hide Decoded, Encoded, Joined, FirstSigner, LayoutOf, HoldsKey, Prepare, TransactionBytes, MessageBytes;
    SignerIsFound(versioned, header, keys, rest, key, header[0]);
    TransactionIsLaidOut(signatures, versioned, header, keys, rest, key);
  }
}
