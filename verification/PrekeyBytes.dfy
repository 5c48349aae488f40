/** Authentication and validation of the device-state bytes, and the round trips
    (`encode_device_state`, `decode_v2`). */
module PrekeyBytes {
  import opened Bytes
  import opened Lists
  import opened Frames
  import opened Framing
  import opened PrekeyState
  import opened PrekeyCodec

  // Validation

  /** `validate_pq_public_in_secret`: the public half sits inside the ML-KEM secret. */
  predicate Embeds(secret: bytes, public: bytes) {
    |secret| >= 1152 + MLKEM_PUBLIC_BYTES && secret[1152..1152 + MLKEM_PUBLIC_BYTES] == public
  }

  function ValidateHalf(pr: Primitives, kind: SignedKind, public: bytes, secret: bytes): Result<()> {
    match kind
    case Classical =>
      var derived :- pr.x25519(secret);
      Check(derived == public, AuthenticationFailed)
    case Pq => Check(Embeds(secret, public), AuthenticationFailed)
  }

  /** `validate_classical_signed` and `validate_pq_signed`. */
  function ValidateSigned(pr: Primitives, id: Identity, kind: SignedKind, key: SignedKey): Result<()> {
    var _ :- ValidateHalf(pr, kind, key.public, key.secret);
    var message :- pr.message(kind, id.userId, key.id, key.public);
    pr.verify(id.signingPublic, message, key.signature)
  }

  function ValidatePairs(pr: Primitives, id: Identity, retired: seq<RetiredPair>): Result<()> {
    if retired == [] then Ok(())
    else
      var _ :- ValidateSigned(pr, id, Classical, retired[0].classical);
      var _ :- ValidateSigned(pr, id, Pq, retired[0].pq);
      ValidatePairs(pr, id, retired[1..])
  }

  function ValidateOneTimes(pr: Primitives, kind: SignedKind, keys: seq<OneTimeKey>): Result<()> {
    if keys == [] then Ok(())
    else
      var _ :- ValidateHalf(pr, kind, keys[0].public, keys[0].secret);
      ValidateOneTimes(pr, kind, keys[1..])
  }

  /** No two neighbours out of order. */
  predicate SortedKeys(keys: seq<OneTimeKey>) {
    forall i, j :: 0 <= i < |keys| && 0 <= j < |keys| && j == i + 1 ==> keys[i].id < keys[j].id
  }

  predicate SortedPairs(retired: seq<RetiredPair>) {
    forall i, j :: 0 <= i < |retired| && 0 <= j < |retired| && j == i + 1 ==>
      retired[i].classical.id < retired[j].classical.id && retired[i].pq.id < retired[j].pq.id
  }

  /** `validate_device_material`. */
  function ValidateMaterial(pr: Primitives, d: Device): Result<()> {
    var _ :- ValidateSigned(pr, d.identity, Classical, d.currentClassical);
    var _ :- ValidateSigned(pr, d.identity, Pq, d.currentPq);
    var _ :- Check(SortedPairs(d.retired), MalformedInput);
    var _ :- ValidatePairs(pr, d.identity, d.retired);
    var _ :- ValidateOneTimes(pr, Classical, d.classical.keys);
    ValidateOneTimes(pr, Pq, d.pq.keys)
  }

  /** The plain checks of `decode_v2`, made before the tag is looked at. */
  predicate Consistent(d: Device) {
    && d.bundleVersion != 0 && !AllZero(d.identity.userId)
    && (d.classical.next == U32_MAX || d.classical.next <= KEY_ID_MAX)
    && (d.pq.next == U32_MAX || d.pq.next <= KEY_ID_MAX)
    && (forall i :: 0 <= i < |d.classical.keys| ==> d.classical.keys[i].id < d.classical.next)
    && (forall i :: 0 <= i < |d.pq.keys| ==> d.pq.keys[i].id < d.pq.next)
  }

  /** The checks made after it. */
  function ValidateKeys(pr: Primitives, d: Device): Result<()> {
    var _ :- Check(pr.verifyingKey(d.identity.signingSecret) == d.identity.signingPublic, AuthenticationFailed);
    var identityPublic :- pr.x25519(d.identity.identitySecret);
    var _ :- Check(identityPublic == d.identity.identityPublic, AuthenticationFailed);
    var classicalPublic :- pr.x25519(d.currentClassical.secret);
    var _ :- Check(classicalPublic == d.currentClassical.public, AuthenticationFailed);
    var _ :- Check(SortedKeys(d.classical.keys) && SortedKeys(d.pq.keys), MalformedInput);
    ValidateMaterial(pr, d)
  }

  // The two directions

  /** `hmac_sha256`, with its own bound on the input. */
  function Tag(pr: Primitives, identitySecret: bytes, encoded: bytes): Result<Bytes32> {
    var key :- pr.authKey(identitySecret);
    var _ :- Check(|encoded| <= MAX_INPUT_BYTES, InputTooLarge);
    Ok(pr.hmac(key, encoded))
  }

  /** `encode_device_state`, over a writer of the body. */
  function EncodeWith(pr: Primitives, put: Device -> bytes, d: Device): Result<bytes> {
    var _ :- Check(|d.retired| <= U8_MAX && |d.classical.keys| <= U16_MAX && |d.pq.keys| <= U16_MAX, ResourceExhausted);
    var _ :- Check(d.pending.Some? ==> |d.pending.value.projection| <= U32_MAX, InputTooLarge);
    var encoded := put(d);
    var tag :- Tag(pr, d.identity.identitySecret, encoded);
    var _ :- Check(|encoded| + TAG_BYTES <= MAX_INPUT_BYTES, InputTooLarge);
    Ok(encoded + tag)
  }

  /** `decode_v2`, over a reader of the body and the checks on keys. */
  function DecodeWith(pr: Primitives, read: bytes -> Result<Device>, keys: Device -> Result<()>,
                      input: bytes): Result<Device> {
    if |input| < TAG_BYTES + 8 then Err(MalformedInput)
    else
      var encoded, supplied := input[..|input| - TAG_BYTES], input[|input| - TAG_BYTES..];
      var d :- read(encoded);
      var tag :- Tag(pr, d.identity.identitySecret, encoded);
      var _ :- Check(tag == supplied, AuthenticationFailed);
      var _ :- keys(d);
      Ok(d)
  }

  /** The whole body, and the plain checks on it. */
  function ReadBody(f: Frames, s: bytes): Result<Device> {
    var (x, s) :- ReadFixed(f, s);
    var (y, s) :- ReadTail(f, s);
    Whole(DeviceOf(x, y), s)
  }

  function Whole(d: Device, rest: bytes): Result<Device> {
    if rest == [] && Consistent(d) then Ok(d) else Err(MalformedInput)
  }

  function BodyWriter(f: Frames): Device -> bytes {
    (d: Device) => PutBody(f, d)
  }

  function BodyReader(f: Frames): bytes -> Result<Device> {
    (s: bytes) => ReadBody(f, s)
  }

  function KeyChecks(pr: Primitives): Device -> Result<()> {
    (d: Device) => ValidateKeys(pr, d)
  }

  function Encode(pr: Primitives, d: Device): Result<bytes> {
    EncodeWith(pr, BodyWriter(ByteFrames()), d)
  }

  function Decode(pr: Primitives, input: bytes): Result<Device> {
    DecodeWith(pr, BodyReader(ByteFrames()), KeyChecks(pr), input)
  }

  // Round trips

  predicate Shaped(d: Device) {
    FixedShape(FixedOf(d)) && TailShape(TailOf(d))
  }

  lemma BodySound(f: Frames, s: bytes)
    requires Sound(f) && ReadBody(f, s).Ok?
    ensures Shaped(ReadBody(f, s).value) && s == PutBody(f, ReadBody(f, s).value)
  {
    FixedSound(f, s);
    TailSound(f, ReadFixed(f, s).value.1);
    var d := ReadBody(f, s).value;
    assert FixedOf(d) == ReadFixed(f, s).value.0 && TailOf(d) == ReadTail(f, ReadFixed(f, s).value.1).value.0;
  }

  lemma BodyComplete(f: Frames, d: Device)
    requires Complete(f) && Shaped(d) && Consistent(d)
    ensures ReadBody(f, PutBody(f, d)) == Ok(d)
  {
    var tail := PutTail(f, TailOf(d), []);
    assert ReadFixed(f, PutBody(f, d)) == Ok((FixedOf(d), tail)) by {
      FixedComplete(f, FixedOf(d), tail);
    }
    assert ReadTail(f, tail) == Ok((TailOf(d), [])) by {
      TailComplete(f, TailOf(d), []);
    }
    assert DeviceOf(FixedOf(d), TailOf(d)) == d;
  }

  /** Bytes that decode are the encoding of what they decode to, exactly when they are within the
      input bound; the decoder itself would take up to 32 bytes more. */
  lemma DecodeThenEncode(pr: Primitives, input: bytes)
    requires Decode(pr, input).Ok?
    ensures Encode(pr, Decode(pr, input).value) == Ok(input) <==> |input| <= MAX_INPUT_BYTES
  {
    ByteFramesSound();
    BodySound(ByteFrames(), input[..|input| - TAG_BYTES]);
    DecodeEncodeWith(pr, BodyWriter(ByteFrames()), BodyReader(ByteFrames()), KeyChecks(pr), input);
  }

  /** What every caller sees: the state is read out of a frame, and a frame that decodes is the
      encoding of what it decodes to. */
  lemma FramedDecodeThenEncode(pr: Primitives, s: bytes)
    requires ReadFrame(s).Ok? && Decode(pr, ReadFrame(s).value.0).Ok?
    ensures Encode(pr, Decode(pr, ReadFrame(s).value.0).value) == Ok(ReadFrame(s).value.0)
  {
    DecodeThenEncode(pr, ReadFrame(s).value.0);
  }

  /** The bound the tag puts on what decodes. */
  lemma DecodedLength(pr: Primitives, input: bytes)
    requires Decode(pr, input).Ok?
    ensures |input| <= MAX_INPUT_BYTES + TAG_BYTES
  {
  }

  lemma DecodeEncodeWith(pr: Primitives, put: Device -> bytes, read: bytes -> Result<Device>,
                         keys: Device -> Result<()>, input: bytes)
    requires DecodeWith(pr, read, keys, input).Ok?
    requires var d := read(input[..|input| - TAG_BYTES]).value; Shaped(d) && put(d) == input[..|input| - TAG_BYTES]
    ensures EncodeWith(pr, put, DecodeWith(pr, read, keys, input).value) == Ok(input) <==> |input| <= MAX_INPUT_BYTES
  {
    assert input == input[..|input| - TAG_BYTES] + input[|input| - TAG_BYTES..];
  }

  /** A consistent state with valid keys that encodes reads back as itself. */
  lemma EncodeThenDecode(pr: Primitives, d: Device)
    requires Shaped(d) && Consistent(d) && ValidateKeys(pr, d).Ok? && Encode(pr, d).Ok?
    ensures Decode(pr, Encode(pr, d).value) == Ok(d)
  {
    ByteFramesComplete();
    BodyComplete(ByteFrames(), d);
    BodySize(ByteFrames(), d);
    EncodeDecodeWith(pr, BodyWriter(ByteFrames()), BodyReader(ByteFrames()), KeyChecks(pr), d);
  }

  lemma EncodeDecodeWith(pr: Primitives, put: Device -> bytes, read: bytes -> Result<Device>,
                         keys: Device -> Result<()>, d: Device)
    requires |put(d)| >= 8 && read(put(d)) == Ok(d) && keys(d).Ok? && EncodeWith(pr, put, d).Ok?
    ensures DecodeWith(pr, read, keys, EncodeWith(pr, put, d).value) == Ok(d)
  {
    var encoded := put(d);
    var tag: Bytes32 := Tag(pr, d.identity.identitySecret, encoded).value;
    var input := encoded + tag;
    assert input[..|input| - TAG_BYTES] == encoded && input[|input| - TAG_BYTES..] == tag;
  }

  // Sizes

  const FIXED_BYTES: nat := 4024
  const PAIR_BYTES: nat := 3796
  const CLASSICAL_BYTES: nat := 68
  const PQ_BYTES: nat := 3588

  lemma FixedSize(f: Frames, x: Fixed, t: bytes)
    requires Sized(f) && FixedShape(x)
    ensures |PutFixed(f, x, t)| == FIXED_BYTES + |t|
  {
    var user: Bytes16, cross: Bytes64 := x.identity.userId, x.crossSignature;
    var a: Bytes32, b: Bytes32, c: Bytes32, e: Bytes32 :=
      x.identity.signingPublic, x.identity.identityPublic, x.identity.signingSecret, x.identity.identitySecret;
  }

  function PendingBytes(pending: Option<Pending>): nat {
    if pending.None? then 1 else 22 + |pending.value.projection|
  }

  lemma TailSize(f: Frames, y: Tail, t: bytes)
    requires Sized(f) && TailShape(y)
    ensures |PutTail(f, y, t)|
         == 5 + PAIR_BYTES * |y.retired| + CLASSICAL_BYTES * |y.classical| + PQ_BYTES * |y.pq| + PendingBytes(y.pending)
           + |t|
  {
    var s3 := PutPending(f, y.pending, t);
    assert |s3| == PendingBytes(y.pending) + |t| by {
      if y.pending.Some? {
        var id: Bytes16 := y.pending.value.batchId;
      }
    }
    ListSize(OneTimeWriter(f), OneTimeRule(Pq), PQ_BYTES, y.pq, s3);
    var s2 := PutOneTimes(f, y.pq, s3);
    ListSize(OneTimeWriter(f), OneTimeRule(Classical), CLASSICAL_BYTES, y.classical, s2);
    var s1 := PutOneTimes(f, y.classical, s2);
    ListSize(PairWriter(f), PairShape, PAIR_BYTES, y.retired, s1);
  }

  lemma BodySize(f: Frames, d: Device)
    requires f == ByteFrames() && Shaped(d)
    ensures |PutBody(f, d)| ==
      FIXED_BYTES + 5 + PAIR_BYTES * |d.retired| + CLASSICAL_BYTES * |d.classical.keys| + PQ_BYTES * |d.pq.keys|
        + PendingBytes(d.pending)
  {
    ByteFramesSized();
    BodySizeWith(f, d);
  }

  lemma BodySizeWith(f: Frames, d: Device)
    requires Sized(f) && Shaped(d)
    ensures |PutBody(f, d)| ==
      FIXED_BYTES + 5 + PAIR_BYTES * |d.retired| + CLASSICAL_BYTES * |d.classical.keys| + PQ_BYTES * |d.pq.keys|
        + PendingBytes(d.pending)
  {
    TailSize(f, TailOf(d), []);
    FixedSize(f, FixedOf(d), PutTail(f, TailOf(d), []));
  }
}
