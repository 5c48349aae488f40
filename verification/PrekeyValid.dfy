/** Exactly which bytes are a device state: what `decode_v2`, `decode_v1` and their key checks accept
    (prekey_state.rs). */
module PrekeyValid {
  import opened Bytes
  import opened Frames
  import Lists
  import opened PrekeyState
  import opened PrekeyRuns
  import opened PrekeyMigration
  import opened PrekeyCodec
  import opened PrekeyBytes
  import opened PrekeyV1

  // What the key checks check

  /** The public half belongs to the secret one. */
  predicate Matches(pr: Primitives, kind: SignedKind, public: bytes, secret: bytes) {
    match kind
    case Classical => pr.x25519(secret).Ok? && pr.x25519(secret).value == public
    case Pq => Embeds(secret, public)
  }

  /** And the device's signing key signed it, under its id. */
  predicate Vouched(pr: Primitives, id: Identity, kind: SignedKind, key: SignedKey) {
    && Matches(pr, kind, key.public, key.secret)
    && pr.message(kind, id.userId, key.id, key.public).Ok?
    && pr.verify(id.signingPublic, pr.message(kind, id.userId, key.id, key.public).value, key.signature).Ok?
  }

  predicate PairVouched(pr: Primitives, id: Identity, pair: RetiredPair) {
    Vouched(pr, id, Classical, pair.classical) && Vouched(pr, id, Pq, pair.pq)
  }

  predicate OwnIdentity(pr: Primitives, id: Identity) {
    && pr.verifyingKey(id.signingSecret) == id.signingPublic
    && pr.x25519(id.identitySecret).Ok? && pr.x25519(id.identitySecret).value == id.identityPublic
  }

  predicate AscendingRetired(retired: seq<RetiredPair>) {
    forall i, j :: 0 <= i < j < |retired| ==>
      retired[i].classical.id < retired[j].classical.id && retired[i].pq.id < retired[j].pq.id
  }

  /** Every key held is the device's own and in its place. */
  predicate KeysSound(pr: Primitives, d: Device) {
    && OwnIdentity(pr, d.identity)
    && Vouched(pr, d.identity, Classical, d.currentClassical) && Vouched(pr, d.identity, Pq, d.currentPq)
    && AscendingRetired(d.retired) && (forall pair :: pair in d.retired ==> PairVouched(pr, d.identity, pair))
    && AscendingKeys(d.classical.keys) && AscendingKeys(d.pq.keys)
    && (forall key :: key in d.classical.keys ==> Matches(pr, Classical, key.public, key.secret))
    && (forall key :: key in d.pq.keys ==> Matches(pr, Pq, key.public, key.secret))
  }

  lemma SignedExactly(pr: Primitives, id: Identity, kind: SignedKind, key: SignedKey)
    ensures ValidateSigned(pr, id, kind, key).Ok? <==> Vouched(pr, id, kind, key)
  {
  }

  lemma {:induction false} PairsExactly(pr: Primitives, id: Identity, retired: seq<RetiredPair>)
    ensures ValidatePairs(pr, id, retired).Ok? <==> forall pair :: pair in retired ==> PairVouched(pr, id, pair)
  {
    if retired != [] {
      PairsExactly(pr, id, retired[1..]);
      SignedExactly(pr, id, Classical, retired[0].classical);
      SignedExactly(pr, id, Pq, retired[0].pq);
      assert retired[0] in retired;
      assert forall pair :: pair in retired ==> pair == retired[0] || pair in retired[1..];
      assert forall pair :: pair in retired[1..] ==> pair in retired;
    }
  }

  lemma {:induction false} OneTimesExactly(pr: Primitives, kind: SignedKind, keys: seq<OneTimeKey>)
    ensures ValidateOneTimes(pr, kind, keys).Ok? <==>
      forall key :: key in keys ==> Matches(pr, kind, key.public, key.secret)
  {
    if keys != [] {
      OneTimesExactly(pr, kind, keys[1..]);
      assert forall key :: key in keys <==> key == keys[0] || key in keys[1..];
    }
  }

  lemma {:induction false} SortedRetiredAscends(retired: seq<RetiredPair>)
    ensures SortedPairs(retired) <==> AscendingRetired(retired)
  {
    if |retired| > 1 {
      var front, last := retired[..|retired| - 1], retired[|retired| - 1];
      SortedRetiredAscends(front);
      if SortedPairs(retired) {
        var next := front[|front| - 1];
        assert next.classical.id < last.classical.id && next.pq.id < last.pq.id;
        forall i | 0 <= i < |front|
          ensures retired[i].classical.id < last.classical.id && retired[i].pq.id < last.pq.id
        {
          assert retired[i] == front[i];
        }
      }
    }
  }

  lemma SortedIsAscending(keys: seq<OneTimeKey>)
    ensures SortedKeys(keys) <==> AscendingKeys(keys)
  {
    if SortedKeys(keys) {
      SortedAscends(keys);
    }
  }

  /** The checks pass exactly when every key, current, retired or one-time, matches its secret, every
      signed key carries the device's signature under its own id, and the lists strictly ascend. */
  lemma ValidateExactly(pr: Primitives, d: Device)
    ensures ValidateKeys(pr, d).Ok? <==> KeysSound(pr, d)
  {
    SignedExactly(pr, d.identity, Classical, d.currentClassical);
    SignedExactly(pr, d.identity, Pq, d.currentPq);
    PairsExactly(pr, d.identity, d.retired);
    OneTimesExactly(pr, Classical, d.classical.keys);
    OneTimesExactly(pr, Pq, d.pq.keys);
    SortedRetiredAscends(d.retired);
    SortedIsAscending(d.classical.keys);
    SortedIsAscending(d.pq.keys);
  }

  // What the decoder accepts

  lemma DecodedWith(pr: Primitives, read: bytes -> Result<Device>, keys: Device -> Result<()>, input: bytes)
    requires DecodeWith(pr, read, keys, input).Ok?
    ensures |input| >= TAG_BYTES
    ensures var d := DecodeWith(pr, read, keys, input).value; read(input[..|input| - TAG_BYTES]) == Ok(d) && keys(d).Ok?
  {
  }

  lemma ReadIsConsistent(f: Frames, s: bytes)
    requires ReadBody(f, s).Ok?
    ensures Consistent(ReadBody(f, s).value)
  {
  }

  lemma DecodedIsSound(pr: Primitives, input: bytes)
    requires Decode(pr, input).Ok?
    ensures var d := Decode(pr, input).value; Shaped(d) && Consistent(d) && ValidateKeys(pr, d).Ok?
  {
    ByteFramesSound();
    DecodedWith(pr, BodyReader(ByteFrames()), KeyChecks(pr), input);
    var encoded := input[..|input| - TAG_BYTES];
    assert ReadBody(ByteFrames(), encoded).Ok?;
    BodySound(ByteFrames(), encoded);
    ReadIsConsistent(ByteFrames(), encoded);
  }

  /** Bytes within the input bound decode to a state exactly when the state is well formed, its keys are
      sound, and the bytes are its encoding, tag included. */
  lemma DecodeExactly(pr: Primitives, input: bytes, d: Device)
    requires |input| <= MAX_INPUT_BYTES
    ensures Decode(pr, input) == Ok(d) <==>
      Shaped(d) && Consistent(d) && KeysSound(pr, d) && Encode(pr, d) == Ok(input)
  {
    ValidateExactly(pr, d);
    if Decode(pr, input) == Ok(d) {
      DecodedIsSound(pr, input);
      DecodeThenEncode(pr, input);
    }
    if Shaped(d) && Consistent(d) && KeysSound(pr, d) && Encode(pr, d) == Ok(input) {
      EncodeThenDecode(pr, d);
    }
  }

  // What migration accepts

  /** The mark past the last of some ascending ids. */
  function MarkPast(keys: seq<OneTimeKey>): u32
    requires keys != []
  {
    var last := keys[|keys| - 1].id;
    if last >= KEY_ID_MAX then U32_MAX else last + 1
  }

  /** The state a first-format value becomes on a day. */
  function Migrant(v: V1, migrationDay: u32): Device
    requires V1Ok(v)
  {
    V1Device(v, MarkPast(v.classical), MarkPast(v.pq), migrationDay)
  }

  predicate Fingerprinted(pr: Primitives, v: V1) {
    var digest := pr.sha256(v.public.signingPublic + v.public.identityPublic);
    digest.Ok? && digest.value == v.public.fingerprint
  }

  lemma MarkIs(keys: seq<OneTimeKey>, kind: SignedKind)
    requires keys != [] && SortedKeys(keys) && Lists.All(OneTimeRule(kind), keys)
    ensures InitialNextId(keys) == Ok(MarkPast(keys))
  {
    InitialPool(keys, kind, |keys|);
    assert OneTimeRule(kind)(keys[|keys| - 1]);
  }

  lemma MaterialExactly(pr: Primitives, d: Device)
    requires d.retired == []
    ensures ValidateMaterial(pr, d).Ok? <==>
      && Vouched(pr, d.identity, Classical, d.currentClassical) && Vouched(pr, d.identity, Pq, d.currentPq)
      && (forall key :: key in d.classical.keys ==> Matches(pr, Classical, key.public, key.secret))
      && (forall key :: key in d.pq.keys ==> Matches(pr, Pq, key.public, key.secret))
  {
    SignedExactly(pr, d.identity, Classical, d.currentClassical);
    SignedExactly(pr, d.identity, Pq, d.currentPq);
    OneTimesExactly(pr, Classical, d.classical.keys);
    OneTimesExactly(pr, Pq, d.pq.keys);
  }

  lemma ChecksExactly(pr: Primitives, v: V1, rest: bytes)
    ensures CheckV1(pr, v, rest).Ok? <==>
      && rest == [] && OwnIdentity(pr, V1Identity(v)) && Fingerprinted(pr, v)
      && pr.x25519(v.secret.classicalSecret) == Ok(v.public.classicalPublic)
      && SortedKeys(v.classical) && SortedKeys(v.pq)
      && pr.message(Classical, v.head.userId, v.head.classicalId, v.public.classicalPublic).Ok?
      && pr.verify(v.public.signingPublic,
                   pr.message(Classical, v.head.userId, v.head.classicalId, v.public.classicalPublic).value,
                   v.public.classicalSignature).Ok?
      && pr.message(Pq, v.head.userId, v.head.pqId, v.public.pqPublic).Ok?
      && pr.verify(v.public.signingPublic, pr.message(Pq, v.head.userId, v.head.pqId, v.public.pqPublic).value,
                   v.public.pqSignature).Ok?
  {
  }

  lemma AdmitExactly(pr: Primitives, v: V1, rest: bytes, migrationDay: u32)
    requires V1Ok(v)
    ensures Admit(pr, v, rest, migrationDay).Ok? <==>
      rest == [] && Fingerprinted(pr, v) && KeysSound(pr, Migrant(v, migrationDay))
    ensures Admit(pr, v, rest, migrationDay).Ok? ==> Admit(pr, v, rest, migrationDay).value == Migrant(v, migrationDay)
  {
    ChecksExactly(pr, v, rest);
    SortedIsAscending(v.classical);
    SortedIsAscending(v.pq);
    if SortedKeys(v.classical) && SortedKeys(v.pq) {
      MarkIs(v.classical, Classical);
      MarkIs(v.pq, Pq);
    }
    MaterialExactly(pr, Migrant(v, migrationDay));
  }

  /** Bytes migrate exactly when they are the layout of a first-format value whose fingerprint is the
      digest of its public keys and whose keys, taken into the new format, are sound. */
  lemma MigrateExactly(pr: Primitives, input: bytes, migrationDay: u32, d: Device)
    ensures Migrate(pr, ByteFrames(), input, migrationDay) == Ok(d) <==>
      exists v :: && V1Counted(v) && input == PutV1(ByteFrames(), v, []) && Fingerprinted(pr, v)
                  && d == Migrant(v, migrationDay) && KeysSound(pr, d)
  {
    ByteFramesSound();
    ByteFramesComplete();
    if Migrate(pr, ByteFrames(), input, migrationDay) == Ok(d) {
      V1Sound(ByteFrames(), input);
      var (v, rest) := ReadV1(ByteFrames(), input).value;
      AdmitExactly(pr, v, rest, migrationDay);
    }
    forall v | V1Counted(v) && input == PutV1(ByteFrames(), v, []) && Fingerprinted(pr, v)
               && d == Migrant(v, migrationDay) && KeysSound(pr, d)
      ensures Migrate(pr, ByteFrames(), input, migrationDay) == Ok(d)
    {
      V1Complete(ByteFrames(), v, []);
      AdmitExactly(pr, v, [], migrationDay);
    }
  }
}
