/** Migration of the first state format (`decode_v1` of prekey_state.rs): what a migrated state is. */
module PrekeyMigration {
  import opened Bytes
  import opened Lists
  import opened Frames
  import opened PrekeyState
  import opened PrekeyRuns
  import opened PrekeyCodec
  import opened PrekeyBytes

  const DEVICE_V1_MAGIC: bytes := [67, 80, 68, 86, 86, 48, 48, 49]
  const MAX_V1_CLASSICAL: nat := 8
  const MAX_V1_PQ: nat := 4

  datatype V1Head = V1Head(userId: Bytes16, registrationId: u32, classicalId: u32, pqId: u32, classicalCount: u16,
                           pqCount: u16)

  datatype V1Public = V1Public(
    signingPublic: Bytes32, identityPublic: Bytes32, classicalPublic: Bytes32, classicalSignature: Bytes64,
    pqPublic: bytes, pqSignature: Bytes64, fingerprint: Bytes32)

  datatype V1Secret = V1Secret(signingSecret: Bytes32, identitySecret: Bytes32, classicalSecret: Bytes32,
                               pqSecret: bytes)

  function ReadV1Head(f: Frames, s: bytes): Parsed<V1Head> {
    var (magic, s) :- f.take(s, 8);
    var _ :- Check(magic == DEVICE_V1_MAGIC, UnsupportedVersion);
    var (userId, s) :- ReadArray(f, s, 16);
    var (registrationId, s) :- ReadU32(f, s);
    var (classicalId, s) :- ReadKeyId(f, s);
    var (pqId, s) :- ReadKeyId(f, s);
    var (classicalCount, s) :- ReadU16(f, s);
    var (pqCount, s) :- ReadU16(f, s);
    var _ :- Check(1 <= classicalCount <= MAX_V1_CLASSICAL && 1 <= pqCount <= MAX_V1_PQ && !AllZero(userId),
                   MalformedInput);
    Ok((V1Head(userId, registrationId, classicalId, pqId, classicalCount, pqCount), s))
  }

  function ReadV1Public(f: Frames, s: bytes): (r: Parsed<V1Public>)
    ensures r.Ok? ==> |r.value.0.pqPublic| == MLKEM_PUBLIC_BYTES
  {
    var (signingPublic, s) :- ReadArray(f, s, 32);
    var (identityPublic, s) :- ReadArray(f, s, 32);
    var (classicalPublic, s) :- ReadArray(f, s, X25519_BYTES);
    var (classicalSignature, s) :- ReadArray(f, s, SIGNATURE_BYTES);
    var (pqPublic, s) :- ReadArray(f, s, MLKEM_PUBLIC_BYTES);
    var (pqSignature, s) :- ReadArray(f, s, SIGNATURE_BYTES);
    var (fingerprint, s) :- ReadArray(f, s, 32);
    Ok((V1Public(signingPublic, identityPublic, classicalPublic, classicalSignature, pqPublic, pqSignature,
                 fingerprint), s))
  }

  function ReadV1Secret(f: Frames, s: bytes): (r: Parsed<V1Secret>)
    ensures r.Ok? ==> |r.value.0.pqSecret| == MLKEM_SECRET_BYTES
  {
    var (signingSecret, s) :- ReadArray(f, s, 32);
    var (identitySecret, s) :- ReadArray(f, s, 32);
    var (classicalSecret, s) :- ReadArray(f, s, X25519_BYTES);
    var (pqSecret, s) :- ReadArray(f, s, MLKEM_SECRET_BYTES);
    Ok((V1Secret(signingSecret, identitySecret, classicalSecret, pqSecret), s))
  }

  function ReadNumbered(f: Frames, s: bytes, kind: SignedKind): Parsed<(u32, bytes)> {
    var (id, s) :- ReadKeyId(f, s);
    var (public, s) :- ReadArray(f, s, PublicBytes(kind));
    Ok(((id, public), s))
  }

  function NumberedReader(f: Frames, kind: SignedKind): bytes -> Parsed<(u32, bytes)> {
    (s: bytes) => ReadNumbered(f, s, kind)
  }

  function SecretReader(f: Frames, kind: SignedKind): bytes -> Parsed<bytes> {
    (s: bytes) => ReadArray(f, s, SecretBytes(kind))
  }

  /** The one-time keys: numbered public halves first, their secrets later, in the same order. */
  function Zip(publics: seq<(u32, bytes)>, secrets: seq<bytes>): (keys: seq<OneTimeKey>)
    requires |publics| == |secrets|
    ensures |keys| == |publics|
    ensures forall i :: 0 <= i < |keys| ==> keys[i] == OneTimeKey(publics[i].0, publics[i].1, secrets[i])
  {
    if publics == [] then []
    else [OneTimeKey(publics[0].0, publics[0].1, secrets[0])] + Zip(publics[1..], secrets[1..])
  }

  function MaxId(keys: seq<OneTimeKey>): u32 {
    if keys == [] then 0
    else
      var rest := MaxId(keys[1..]);
      if keys[0].id > rest then keys[0].id else rest
  }

  /** `initial_next_id`. */
  function InitialNextId(keys: seq<OneTimeKey>): Result<u32> {
    var current := MaxId(keys);
    if current == KEY_ID_MAX then Ok(U32_MAX)
    else if current == U32_MAX then Err(StateViolation)
    else Ok(current + 1)
  }

  datatype V1 = V1(head: V1Head, public: V1Public, secret: V1Secret, classical: seq<OneTimeKey>, pq: seq<OneTimeKey>)

  function ReadV1(f: Frames, s: bytes): Parsed<V1> {
    var (head, s) :- ReadV1Head(f, s);
    var (public, s) :- ReadV1Public(f, s);
    var (classicalPublics, s) :- ReadList(NumberedReader(f, Classical), s, head.classicalCount);
    var (pqPublics, s) :- ReadList(NumberedReader(f, Pq), s, head.pqCount);
    var (secret, s) :- ReadV1Secret(f, s);
    var (classicalSecrets, s) :- ReadList(SecretReader(f, Classical), s, head.classicalCount);
    var (pqSecrets, s) :- ReadList(SecretReader(f, Pq), s, head.pqCount);
    Ok((V1(head, public, secret, Zip(classicalPublics, classicalSecrets), Zip(pqPublics, pqSecrets)), s))
  }

  function V1Identity(v: V1): Identity {
    Identity(v.head.userId, v.head.registrationId, v.public.signingPublic, v.public.identityPublic,
             v.secret.signingSecret, v.secret.identitySecret)
  }

  /** The upgraded pair counts as a week old, or as old as day 0. */
  function V1Device(v: V1, nextClassical: u32, nextPq: u32, migrationDay: u32): Device {
    var created := SaturatingSub(migrationDay, ROTATION_DAYS);
    Device(V1Identity(v), 1, Pool(nextClassical, v.classical), Pool(nextPq, v.pq),
           SignedKey(v.head.classicalId, created, v.public.classicalPublic, v.public.classicalSignature,
                     v.secret.classicalSecret),
           SignedKey(v.head.pqId, created, v.public.pqPublic, v.public.pqSignature, v.secret.pqSecret),
           seq(64, _ => 0), [], None)
  }

  function CheckV1(pr: Primitives, v: V1, rest: bytes): Result<()> {
    var _ :- Check(rest == [] && pr.verifyingKey(v.secret.signingSecret) == v.public.signingPublic,
                   AuthenticationFailed);
    var identityPublic :- pr.x25519(v.secret.identitySecret);
    var _ :- Check(identityPublic == v.public.identityPublic, AuthenticationFailed);
    var classicalPublic :- pr.x25519(v.secret.classicalSecret);
    var _ :- Check(classicalPublic == v.public.classicalPublic, AuthenticationFailed);
    var fingerprint :- pr.sha256(v.public.signingPublic + v.public.identityPublic);
    var _ :- Check(fingerprint == v.public.fingerprint, AuthenticationFailed);
    var _ :- Check(SortedKeys(v.classical) && SortedKeys(v.pq), MalformedInput);
    var message :- pr.message(Classical, v.head.userId, v.head.classicalId, v.public.classicalPublic);
    var _ :- pr.verify(v.public.signingPublic, message, v.public.classicalSignature);
    var pqMessage :- pr.message(Pq, v.head.userId, v.head.pqId, v.public.pqPublic);
    pr.verify(v.public.signingPublic, pqMessage, v.public.pqSignature)
  }

  function Admit(pr: Primitives, v: V1, rest: bytes, migrationDay: u32): Result<Device> {
    var _ :- CheckV1(pr, v, rest);
    var nextClassical :- InitialNextId(v.classical);
    var nextPq :- InitialNextId(v.pq);
    var d := V1Device(v, nextClassical, nextPq, migrationDay);
    var _ :- ValidateMaterial(pr, d);
    Ok(d)
  }

  /** `decode_v1`. */
  function Migrate(pr: Primitives, f: Frames, input: bytes, migrationDay: u32): Result<Device> {
    var (v, rest) :- ReadV1(f, input);
    Admit(pr, v, rest, migrationDay)
  }

  // What migration yields

  lemma {:induction false} ListAll<T(!new)>(read: bytes -> Parsed<T>, ok: T -> bool, s: bytes, n: nat)
    requires ReadList(read, s, n).Ok? && forall s: bytes :: read(s).Ok? ==> ok(read(s).value.0)
    ensures All(ok, ReadList(read, s, n).value.0)
    decreases n
  {
    if n > 0 {
      ListAll(read, ok, read(s).value.1, n - 1);
    }
  }

  predicate NumberedShape(kind: SignedKind, x: (u32, bytes)) {
    x.0 <= KEY_ID_MAX && |x.1| == PublicBytes(kind)
  }

  lemma ZipShape(f: Frames, kind: SignedKind, s: bytes, t: bytes, n: nat)
    requires ReadList(NumberedReader(f, kind), s, n).Ok? && ReadList(SecretReader(f, kind), t, n).Ok?
    ensures All(OneTimeRule(kind),
                Zip(ReadList(NumberedReader(f, kind), s, n).value.0, ReadList(SecretReader(f, kind), t, n).value.0))
  {
    ListAll(NumberedReader(f, kind), x => NumberedShape(kind, x), s, n);
    ListAll(SecretReader(f, kind), (x: bytes) => |x| == SecretBytes(kind), t, n);
  }

  predicate V1Ok(v: V1) {
    && !AllZero(v.head.userId) && v.head.classicalId <= KEY_ID_MAX && v.head.pqId <= KEY_ID_MAX
    && 1 <= |v.classical| <= MAX_V1_CLASSICAL && 1 <= |v.pq| <= MAX_V1_PQ
    && All(OneTimeRule(Classical), v.classical) && All(OneTimeRule(Pq), v.pq)
    && |v.public.pqPublic| == MLKEM_PUBLIC_BYTES && |v.secret.pqSecret| == MLKEM_SECRET_BYTES
  }

  lemma V1Shape(f: Frames, s: bytes)
    requires ReadV1(f, s).Ok?
    ensures V1Ok(ReadV1(f, s).value.0)
  {
    var (head, s1) := ReadV1Head(f, s).value;
    var s2 := ReadV1Public(f, s1).value.1;
    var s3 := ReadList(NumberedReader(f, Classical), s2, head.classicalCount).value.1;
    var s4 := ReadList(NumberedReader(f, Pq), s3, head.pqCount).value.1;
    var s5 := ReadV1Secret(f, s4).value.1;
    ZipShape(f, Classical, s2, s5, head.classicalCount);
    ZipShape(f, Pq, s3, ReadList(SecretReader(f, Classical), s5, head.classicalCount).value.1, head.pqCount);
  }

  lemma {:induction false} SortedAscends(keys: seq<OneTimeKey>)
    requires SortedKeys(keys)
    ensures AscendingKeys(keys)
  {
    if |keys| > 1 {
      var front := keys[..|keys| - 1];
      SortedAscends(front);
      forall i | 0 <= i < |front|
        ensures keys[i].id < keys[|keys| - 1].id
      {
        assert front[i].id <= front[|front| - 1].id < keys[|keys| - 1].id;
      }
    }
  }

  lemma {:induction false} MaxIsLast(keys: seq<OneTimeKey>)
    requires keys != [] && AscendingKeys(keys)
    ensures MaxId(keys) == keys[|keys| - 1].id
  {
    if |keys| > 1 {
      MaxIsLast(keys[1..]);
    }
  }

  lemma InitialPool(keys: seq<OneTimeKey>, kind: SignedKind, most: nat)
    requires 1 <= |keys| <= most && SortedKeys(keys) && All(OneTimeRule(kind), keys)
    ensures InitialNextId(keys).Ok? && MigratedPool(Pool(InitialNextId(keys).value, keys), most)
  {
    SortedAscends(keys);
    MaxIsLast(keys);
    forall i | 0 <= i < |keys|
      ensures keys[i].id <= KEY_ID_MAX
    {
      assert OneTimeRule(kind)(keys[i]);
    }
  }

  /** A migrated state has an empty rotation history, fresh high-water marks, and passes every check
      the decoder of the current format makes. Its pair is due for rotation at once, except on the
      first seven days, where the subtraction saturates. */
  lemma MigrationYields(pr: Primitives, f: Frames, input: bytes, migrationDay: u32)
    requires Migrate(pr, f, input, migrationDay).Ok?
    ensures var d := Migrate(pr, f, input, migrationDay).value;
      && Migrated(d) && Shaped(d) && !AllZero(d.identity.userId) && ValidateKeys(pr, d).Ok?
      && d.currentClassical.createdDay == d.currentPq.createdDay == SaturatingSub(migrationDay, ROTATION_DAYS)
      && (RotationDue(d, migrationDay) <==> migrationDay >= ROTATION_DAYS)
  {
    V1Shape(f, input);
    AdmitYields(pr, ReadV1(f, input).value.0, ReadV1(f, input).value.1, migrationDay);
  }

  lemma AdmitYields(pr: Primitives, v: V1, rest: bytes, migrationDay: u32)
    requires V1Ok(v) && Admit(pr, v, rest, migrationDay).Ok?
    ensures var d := Admit(pr, v, rest, migrationDay).value;
      && Migrated(d) && Shaped(d) && !AllZero(d.identity.userId) && ValidateKeys(pr, d).Ok?
      && d.currentClassical.createdDay == d.currentPq.createdDay == SaturatingSub(migrationDay, ROTATION_DAYS)
      && (RotationDue(d, migrationDay) <==> migrationDay >= ROTATION_DAYS)
  {
    InitialPool(v.classical, Classical, MAX_V1_CLASSICAL);
    InitialPool(v.pq, Pq, MAX_V1_PQ);
    var a: Bytes32, b: Bytes64, c: Bytes64, e: Bytes32 :=
      v.public.classicalPublic, v.public.classicalSignature, v.public.pqSignature, v.secret.classicalSecret;
  }
}
