/** The recovery secret as a person types it (enrollment.rs): 32 bytes of entropy and a two-byte
    checksum in base 32, grouped in fives. */
module RecoverySecret {
  import opened Bytes
  import opened Crockford

  const ENTROPY_BYTES: nat := 32
  const CHECKSUM_BYTES: nat := 2
  const PAYLOAD_BYTES: nat := 34
  const DASH: byte := 45

  /** ASCII whitespace as the standard library defines it, or a dash. */
  predicate Separator(b: byte) {
    b == 32 || b == 9 || b == 10 || b == 12 || b == 13 || b == DASH
  }

  function Upper(b: byte): byte {
    if 97 <= b <= 122 then b - 32 else b
  }

  /** Separators dropped, letters raised. A byte outside ASCII passes through and no symbol reads
      it, so input that is not UTF-8 is refused here as it is by the source's text check. */
  function Compact(input: bytes): bytes {
    if input == [] then []
    else (if Separator(input[0]) then [] else [Upper(input[0])]) + Compact(input[1..])
  }

  /** `group_recovery_secret`: groups of five, joined by dashes. */
  function Group(text: bytes): bytes {
    if |text| <= 5 then text else text[..5] + [DASH] + Group(text[5..])
  }

  function Payload(sha256: bytes -> Bytes32, entropy: Bytes32): (p: bytes)
    ensures |p| == PAYLOAD_BYTES
  {
    entropy + sha256(entropy)[..CHECKSUM_BYTES]
  }

  /** `encode_recovery_secret`. */
  function EncodeSecret(sha256: bytes -> Bytes32, entropy: Bytes32): bytes {
    Group(Encoded(Payload(sha256, entropy)))
  }

  predicate ChecksumOk(sha256: bytes -> Bytes32, payload: bytes) {
    |payload| == PAYLOAD_BYTES && payload[ENTROPY_BYTES..] == sha256(payload[..ENTROPY_BYTES])[..CHECKSUM_BYTES]
  }

  /** `normalize_recovery_secret`. */
  function Normalize(sha256: bytes -> Bytes32, input: bytes): Result<bytes> {
    var payload := Decoded(Compact(input));
    if payload.Err? then Err(AuthenticationFailed)
    else if !ChecksumOk(sha256, payload.value) then Err(AuthenticationFailed)
    else Ok(Group(Encoded(payload.value)))
  }

  /** The same through the loops. */
  method NormalizeRecoverySecret(sha256: bytes -> Bytes32, input: bytes) returns (r: Result<bytes>)
    ensures r == Normalize(sha256, input)
  {
    var payload := CrockfordDecode(Compact(input));
    if payload.Err? || !ChecksumOk(sha256, payload.value) {
      return Err(AuthenticationFailed);
    }
    var encoded := CrockfordEncode(payload.value);
    return Ok(Group(encoded));
  }

  // Grouping is undone by compacting

  predicate Plain(text: bytes) {
    forall i :: 0 <= i < |text| ==> !Separator(text[i]) && Upper(text[i]) == text[i]
  }

  lemma {:induction false} CompactConcat(a: bytes, b: bytes)
    ensures Compact(a + b) == Compact(a) + Compact(b)
  {
    if a == [] {
      assert a + b == b;
    } else {
      CompactConcat(a[1..], b);
      assert (a + b)[0] == a[0] && (a + b)[1..] == a[1..] + b;
      Reassociate(if Separator(a[0]) then [] else [Upper(a[0])], Compact(a[1..]), Compact(b));
    }
  }

  lemma Reassociate(a: bytes, b: bytes, c: bytes)
    ensures a + (b + c) == a + b + c
  {
  }

  lemma {:induction false} CompactPlain(text: bytes)
    requires Plain(text)
    ensures Compact(text) == text
  {
    if text != [] {
      CompactPlain(text[1..]);
    }
  }

  lemma {:induction false} CompactOfGroup(text: bytes)
    requires Plain(text)
    ensures Compact(Group(text)) == text
  {
    if |text| <= 5 {
      CompactPlain(text);
    } else {
      CompactOfGroup(text[5..]);
      CompactPlain(text[..5]);
      CompactConcat(text[..5] + [DASH], Group(text[5..]));
      CompactConcat(text[..5], [DASH]);
      assert Compact([DASH]) == [];
      assert text == text[..5] + text[5..];
    }
  }

  lemma AlphabetIsPlain(i: nat)
    requires i < 32
    ensures !Separator(ALPHABET[i]) && Upper(ALPHABET[i]) == ALPHABET[i]
  {
  }

  lemma EncodedIsPlain(payload: bytes)
    ensures Plain(Encoded(payload))
  {
    var symbols := Symbols(payload);
    forall i | 0 <= i < |symbols|
      ensures !Separator(Encoded(payload)[i]) && Upper(Encoded(payload)[i]) == Encoded(payload)[i]
    {
      AlphabetIsPlain(symbols[i]);
    }
  }

  /** The canonical text of a payload reads back as that payload. */
  lemma CanonicalReadsBack(payload: bytes)
    ensures Decoded(Compact(Group(Encoded(payload)))) == Ok(payload)
  {
    EncodedIsPlain(payload);
    CompactOfGroup(Encoded(payload));
    DecodeOfEncode(payload);
  }

  // The promises

  /** Every encoded secret is accepted and left as it is. */
  lemma NormalizeFixesEncoded(sha256: bytes -> Bytes32, entropy: Bytes32)
    ensures Normalize(sha256, EncodeSecret(sha256, entropy)) == Ok(EncodeSecret(sha256, entropy))
  {
    CanonicalReadsBack(Payload(sha256, entropy));
  }

  /** Normalising again changes nothing. */
  lemma NormalizeIdempotent(sha256: bytes -> Bytes32, input: bytes)
    requires Normalize(sha256, input).Ok?
    ensures Normalize(sha256, Normalize(sha256, input).value) == Normalize(sha256, input)
  {
    CanonicalReadsBack(Decoded(Compact(input)).value);
  }

  /** Two accepted inputs normalise to the same text exactly when they carry the same payload, and
      exactly when, separators and letter case aside, they spell the same symbols. */
  lemma NormalizeAgrees(sha256: bytes -> Bytes32, a: bytes, b: bytes)
    requires Normalize(sha256, a).Ok? && Normalize(sha256, b).Ok?
    ensures Normalize(sha256, a) == Normalize(sha256, b) <==> Decoded(Compact(a)) == Decoded(Compact(b))
    ensures Normalize(sha256, a) == Normalize(sha256, b) <==> Values(Compact(a)) == Values(Compact(b))
  {
    CanonicalReadsBack(Decoded(Compact(a)).value);
    CanonicalReadsBack(Decoded(Compact(b)).value);
    FiftyFiveSymbols(Compact(a));
    FiftyFiveSymbols(Compact(b));
    DecodeInjective(Compact(a), Compact(b));
  }

  /** The checksum decides. Input is accepted exactly when what it spells is some entropy followed by
      the first two bytes of that entropy's digest, and the text given back is the one that entropy
      was written out as. */
  lemma NormalizeExactly(sha256: bytes -> Bytes32, input: bytes)
    ensures Normalize(sha256, input).Ok? <==>
      exists entropy: Bytes32 :: Decoded(Compact(input)) == Ok(Payload(sha256, entropy))
    ensures forall entropy: Bytes32 :: Decoded(Compact(input)) == Ok(Payload(sha256, entropy)) ==>
      Normalize(sha256, input) == Ok(EncodeSecret(sha256, entropy))
    ensures Normalize(sha256, input).Err? ==> Normalize(sha256, input).error == AuthenticationFailed
  {
    forall entropy: Bytes32 | Decoded(Compact(input)) == Ok(Payload(sha256, entropy))
      ensures Normalize(sha256, input) == Ok(EncodeSecret(sha256, entropy))
    {
      var payload := Payload(sha256, entropy);
      assert payload[..ENTROPY_BYTES] == entropy;
      assert payload[ENTROPY_BYTES..] == sha256(entropy)[..CHECKSUM_BYTES];
    }
    if Normalize(sha256, input).Ok? {
      var payload := Decoded(Compact(input)).value;
      var entropy: Bytes32 := payload[..ENTROPY_BYTES];
      assert payload == Payload(sha256, entropy);
    }
  }

  // However it is typed

  /** What compacting one character in the middle of a text comes to. */
  lemma CompactMiddle(before: bytes, b: byte, after: bytes)
    ensures Compact(before + [b] + after) == Compact(before) + Compact([b]) + Compact(after)
  {
    CompactConcat(before + [b], after);
    CompactConcat(before, [b]);
  }

  /** A space, tab, line break, form feed, carriage return or dash anywhere changes nothing. */
  lemma SeparatorIgnored(sha256: bytes -> Bytes32, before: bytes, mark: byte, after: bytes)
    requires mark == 32 || mark == 9 || mark == 10 || mark == 12 || mark == 13 || mark == 45
    ensures Normalize(sha256, before + [mark] + after) == Normalize(sha256, before + after)
  {
    assert Compact(before + [mark] + after) == Compact(before + after) by {
      CompactMiddle(before, mark, after);
      CompactConcat(before, after);
      assert Compact([mark]) == [];
    }
  }

  /** An ASCII letter in its other case. */
  function Swapped(b: byte): byte {
    if 65 <= b <= 90 then b + 32 else if 97 <= b <= 122 then b - 32 else b
  }

  /** Any letter may be typed in either case. */
  lemma CaseIgnored(sha256: bytes -> Bytes32, before: bytes, letter: byte, after: bytes)
    ensures Normalize(sha256, before + [Swapped(letter)] + after) == Normalize(sha256, before + [letter] + after)
  {
    assert Compact(before + [Swapped(letter)] + after) == Compact(before + [letter] + after) by {
      CompactMiddle(before, letter, after);
      CompactMiddle(before, Swapped(letter), after);
      assert Compact([letter]) == Compact([Swapped(letter)]);
    }
  }

  /** O may be typed for zero, and I or L for one. */
  lemma AliasIgnored(sha256: bytes -> Bytes32, before: bytes, alias: byte, digit: byte, after: bytes)
    requires (alias == 79 && digit == 48) || (alias == 73 && digit == 49) || (alias == 76 && digit == 49)
    ensures Normalize(sha256, before + [alias] + after) == Normalize(sha256, before + [digit] + after)
  {
    CompactMiddle(before, alias, after);
    CompactMiddle(before, digit, after);
    assert Compact([alias]) == [alias] && Compact([digit]) == [digit];
    ReadAlike(Compact(before), alias, digit, Compact(after));
  }

  lemma ReadAlike(before: bytes, a: byte, b: byte, after: bytes)
    requires SymbolValue(a) == SymbolValue(b)
    ensures Decoded(before + [a] + after) == Decoded(before + [b] + after)
  {
    var s, t := before + [a] + after, before + [b] + after;
    assert forall i :: 0 <= i < |s| ==> SymbolValue(s[i]) == SymbolValue(t[i]);
    assert Readable(s) <==> Readable(t);
    if Readable(s) {
      assert Values(s) == Values(t);
    }
  }

  /** Accepted input holds exactly 55 symbols, and its canonical text is eleven groups of five. */
  lemma AcceptedShape(sha256: bytes -> Bytes32, input: bytes)
    requires Normalize(sha256, input).Ok?
    ensures |Compact(input)| == 55 && |Normalize(sha256, input).value| == 65
  {
    FiftyFiveSymbols(Compact(input));
    CanonicalLength(Decoded(Compact(input)).value);
  }

  lemma CanonicalLength(payload: bytes)
    requires |payload| == PAYLOAD_BYTES
    ensures |Group(Encoded(payload))| == 65
  {
    var text := Encoded(payload);
    assert |text| == 55;
    GroupLength(text);
  }

  lemma {:induction false} GroupLength(text: bytes)
    requires text != []
    ensures |Group(text)| == |text| + (|text| - 1) / 5
  {
    if |text| > 5 {
      GroupLength(text[5..]);
    }
  }
}
