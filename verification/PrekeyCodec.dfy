/** The authenticated byte form of the device state (prekey_state.rs, CPDVV002). */
module PrekeyCodec {
  import opened Bytes
  import opened Lists
  import opened Frames
  import opened PrekeyState

  const DEVICE_V2_MAGIC: bytes := [67, 80, 68, 86, 86, 48, 48, 50]
  const TAG_BYTES: nat := 32
  const X25519_BYTES: nat := 32
  const SIGNATURE_BYTES: nat := 64
  const MLKEM_PUBLIC_BYTES: nat := 1184
  const MLKEM_SECRET_BYTES: nat := 2400

  // What the fixed-size arrays of the source say about a state

  predicate SignedShape(key: SignedKey, kind: SignedKind) {
    && key.id <= KEY_ID_MAX
    && |key.public| == PublicBytes(kind) && |key.signature| == SIGNATURE_BYTES && |key.secret| == SecretBytes(kind)
  }

  function PublicBytes(kind: SignedKind): nat {
    if kind == Classical then X25519_BYTES else MLKEM_PUBLIC_BYTES
  }

  function SecretBytes(kind: SignedKind): nat {
    if kind == Classical then X25519_BYTES else MLKEM_SECRET_BYTES
  }

  predicate PairShape(pair: RetiredPair) {
    SignedShape(pair.classical, Classical) && SignedShape(pair.pq, Pq)
  }

  predicate OneTimeShape(key: OneTimeKey, kind: SignedKind) {
    key.id <= KEY_ID_MAX && |key.public| == PublicBytes(kind) && |key.secret| == SecretBytes(kind)
  }

  function OneTimeRule(kind: SignedKind): OneTimeKey -> bool {
    (key: OneTimeKey) => OneTimeShape(key, kind)
  }

  predicate PendingShape(pending: Option<Pending>) {
    pending.Some? ==>
      && (pending.value.kind == UPLOAD_REPLENISH || pending.value.kind == UPLOAD_ROTATION)
      && |pending.value.projection| <= MAX_INPUT_BYTES
  }

  // The state in two parts, as the bytes hold it

  datatype Fixed = Fixed(
    identity: Identity, bundleVersion: u32, nextClassical: u32, nextPq: u32,
    currentClassical: SignedKey, currentPq: SignedKey, crossSignature: Bytes64)

  datatype Tail = Tail(retired: seq<RetiredPair>, classical: seq<OneTimeKey>, pq: seq<OneTimeKey>,
                       pending: Option<Pending>)

  function FixedOf(d: Device): Fixed {
    Fixed(d.identity, d.bundleVersion, d.classical.next, d.pq.next, d.currentClassical, d.currentPq, d.crossSignature)
  }

  function TailOf(d: Device): Tail {
    Tail(d.retired, d.classical.keys, d.pq.keys, d.pending)
  }

  function DeviceOf(x: Fixed, y: Tail): Device {
    Device(x.identity, x.bundleVersion, Pool(x.nextClassical, y.classical), Pool(x.nextPq, y.pq),
           x.currentClassical, x.currentPq, x.crossSignature, y.retired, y.pending)
  }

  predicate FixedShape(x: Fixed) {
    SignedShape(x.currentClassical, Classical) && SignedShape(x.currentPq, Pq)
  }

  predicate TailShape(y: Tail) {
    && |y.retired| <= MAX_RETIRED && All(PairShape, y.retired)
    && |y.classical| <= MAX_CLASSICAL && All(OneTimeRule(Classical), y.classical)
    && |y.pq| <= MAX_PQ && All(OneTimeRule(Pq), y.pq)
    && PendingShape(y.pending)
  }

  // Writers

  function PutHead(f: Frames, x: Fixed, t: bytes): bytes {
    f.put(DEVICE_V2_MAGIC,
    f.put(x.identity.userId,
    f.putInt(x.identity.registrationId, 4,
    f.putInt(x.bundleVersion, 4,
    f.putInt(x.nextClassical, 4,
    f.putInt(x.nextPq, 4, t))))))
  }

  function PutIdentityKeys(f: Frames, id: Identity, t: bytes): bytes {
    f.put(id.signingPublic, f.put(id.identityPublic, f.put(id.signingSecret, f.put(id.identitySecret, t))))
  }

  function PutSigned(f: Frames, key: SignedKey, t: bytes): bytes {
    f.putInt(key.id, 4, f.putInt(key.createdDay, 4, f.put(key.public, f.put(key.signature, f.put(key.secret, t)))))
  }

  function PutFixed(f: Frames, x: Fixed, t: bytes): bytes {
    PutHead(f, x,
    PutIdentityKeys(f, x.identity,
    PutSigned(f, x.currentClassical,
    PutSigned(f, x.currentPq,
    f.put(x.crossSignature, t)))))
  }

  function PutPair(f: Frames, pair: RetiredPair, t: bytes): bytes {
    f.putInt(pair.retainThrough, 4, PutSigned(f, pair.classical, PutSigned(f, pair.pq, t)))
  }

  function PairWriter(f: Frames): (RetiredPair, bytes) -> bytes {
    (pair: RetiredPair, t: bytes) => PutPair(f, pair, t)
  }

  function PutOneTime(f: Frames, key: OneTimeKey, t: bytes): bytes {
    f.putInt(key.id, 4, f.put(key.public, f.put(key.secret, t)))
  }

  function OneTimeWriter(f: Frames): (OneTimeKey, bytes) -> bytes {
    (key: OneTimeKey, t: bytes) => PutOneTime(f, key, t)
  }

  function PutPending(f: Frames, pending: Option<Pending>, t: bytes): bytes {
    match pending
    case None => PutFlag(f, false, t)
    case Some(p) => PutFlag(f, true, f.putInt(p.kind, 1, f.put(p.batchId, f.putFrame(p.projection, t))))
  }

  function PutRetired(f: Frames, retired: seq<RetiredPair>, t: bytes): bytes {
    f.putInt(|retired|, 1, PutList(PairWriter(f), retired, t))
  }

  function PutOneTimes(f: Frames, keys: seq<OneTimeKey>, t: bytes): bytes {
    f.putInt(|keys|, 2, PutList(OneTimeWriter(f), keys, t))
  }

  function PutTail(f: Frames, y: Tail, t: bytes): bytes {
    PutRetired(f, y.retired, PutOneTimes(f, y.classical, PutOneTimes(f, y.pq, PutPending(f, y.pending, t))))
  }

  function PutBody(f: Frames, d: Device): bytes {
    PutFixed(f, FixedOf(d), PutTail(f, TailOf(d), []))
  }

  // Readers

  function ReadKeyId(f: Frames, s: bytes): Parsed<u32> {
    var (id, t) :- ReadU32(f, s);
    var _ :- Check(id <= KEY_ID_MAX, MalformedInput);
    Ok((id, t))
  }

  function ReadSigned(f: Frames, s: bytes, kind: SignedKind): Parsed<SignedKey> {
    var (id, s) :- ReadKeyId(f, s);
    var (createdDay, s) :- ReadU32(f, s);
    var (public, s) :- ReadArray(f, s, PublicBytes(kind));
    var (signature, s) :- ReadArray(f, s, SIGNATURE_BYTES);
    var (secret, s) :- ReadArray(f, s, SecretBytes(kind));
    Ok((SignedKey(id, createdDay, public, signature, secret), s))
  }

  /** The magic, the user and the counters. */
  function ReadHead(f: Frames, s: bytes): Parsed<(Bytes16, u32, u32, u32, u32)> {
    var (magic, s) :- f.take(s, 8);
    var _ :- Check(magic == DEVICE_V2_MAGIC, UnsupportedVersion);
    var (userId, s) :- ReadArray(f, s, 16);
    var (registrationId, s) :- ReadU32(f, s);
    var (bundleVersion, s) :- ReadU32(f, s);
    var (nextClassical, s) :- ReadU32(f, s);
    var (nextPq, s) :- ReadU32(f, s);
    Ok(((userId, registrationId, bundleVersion, nextClassical, nextPq), s))
  }

  function ReadFixed(f: Frames, s: bytes): Parsed<Fixed> {
    var (head, s) :- ReadHead(f, s);
    var (signingPublic, s) :- ReadArray(f, s, 32);
    var (identityPublic, s) :- ReadArray(f, s, 32);
    var (signingSecret, s) :- ReadArray(f, s, 32);
    var (identitySecret, s) :- ReadArray(f, s, 32);
    var (currentClassical, s) :- ReadSigned(f, s, Classical);
    var (currentPq, s) :- ReadSigned(f, s, Pq);
    var (cross, s) :- ReadArray(f, s, 64);
    Ok((Fixed(Identity(head.0, head.1, signingPublic, identityPublic, signingSecret, identitySecret),
              head.2, head.3, head.4, currentClassical, currentPq, cross), s))
  }

  function ReadPair(f: Frames, s: bytes): Parsed<RetiredPair> {
    var (retainThrough, s) :- ReadU32(f, s);
    var (classical, s) :- ReadSigned(f, s, Classical);
    var (pq, s) :- ReadSigned(f, s, Pq);
    Ok((RetiredPair(retainThrough, classical, pq), s))
  }

  function PairReader(f: Frames): bytes -> Parsed<RetiredPair> {
    (s: bytes) => ReadPair(f, s)
  }

  function ReadOneTime(f: Frames, s: bytes, kind: SignedKind): Parsed<OneTimeKey> {
    var (id, s) :- ReadKeyId(f, s);
    var (public, s) :- ReadArray(f, s, PublicBytes(kind));
    var (secret, s) :- ReadArray(f, s, SecretBytes(kind));
    Ok((OneTimeKey(id, public, secret), s))
  }

  function OneTimeReader(f: Frames, kind: SignedKind): bytes -> Parsed<OneTimeKey> {
    (s: bytes) => ReadOneTime(f, s, kind)
  }

  function ReadPending(f: Frames, s: bytes): Parsed<Option<Pending>> {
    var (present, s) :- ReadFlag(f, s);
    if !present then Ok((None, s))
    else
      var (kind, s) :- ReadU8(f, s);
      var _ :- Check(kind == UPLOAD_REPLENISH || kind == UPLOAD_ROTATION, MalformedInput);
      var (batchId, s) :- ReadArray(f, s, 16);
      var (projection, s) :- f.readFrame(s);
      Ok((Some(Pending(batchId, kind, projection)), s))
  }

  function ReadRetired(f: Frames, s: bytes): Parsed<seq<RetiredPair>> {
    var (count, s) :- ReadU8(f, s);
    var _ :- Check(count <= MAX_RETIRED, ResourceExhausted);
    ReadList(PairReader(f), s, count)
  }

  function Cap(kind: SignedKind): nat {
    if kind == Classical then MAX_CLASSICAL else MAX_PQ
  }

  function ReadOneTimes(f: Frames, s: bytes, kind: SignedKind): Parsed<seq<OneTimeKey>> {
    var (count, s) :- ReadU16(f, s);
    var _ :- Check(count <= Cap(kind), ResourceExhausted);
    ReadList(OneTimeReader(f, kind), s, count)
  }

  function ReadTail(f: Frames, s: bytes): Parsed<Tail> {
    var (retired, s) :- ReadRetired(f, s);
    var (classical, s) :- ReadOneTimes(f, s, Classical);
    var (pq, s) :- ReadOneTimes(f, s, Pq);
    var (pending, s) :- ReadPending(f, s);
    Ok((Tail(retired, classical, pq, pending), s))
  }

  // The readers accept only what the writers write

  lemma SignedSound(f: Frames, s: bytes, kind: SignedKind)
    requires Sound(f) && ReadSigned(f, s, kind).Ok?
    ensures SignedShape(ReadSigned(f, s, kind).value.0, kind)
    ensures s == PutSigned(f, ReadSigned(f, s, kind).value.0, ReadSigned(f, s, kind).value.1)
  {
  }

  lemma HeadSound(f: Frames, s: bytes, x: Fixed)
    requires Sound(f) && ReadHead(f, s).Ok?
    requires ReadHead(f, s).value.0
      == (x.identity.userId, x.identity.registrationId, x.bundleVersion, x.nextClassical, x.nextPq)
    ensures s == PutHead(f, x, ReadHead(f, s).value.1)
  {
  }

  lemma FixedSound(f: Frames, s: bytes)
    requires Sound(f) && ReadFixed(f, s).Ok?
    ensures FixedShape(ReadFixed(f, s).value.0)
    ensures s == PutFixed(f, ReadFixed(f, s).value.0, ReadFixed(f, s).value.1)
  {
    var (x, t) := ReadFixed(f, s).value;
    HeadSound(f, s, x);
    var s1 := ReadHead(f, s).value.1;
    var s2 := ReadArray(f, s1, 32).value.1;
    var s3 := ReadArray(f, s2, 32).value.1;
    var s4 := ReadArray(f, s3, 32).value.1;
    var s5 := ReadArray(f, s4, 32).value.1;
    SignedSound(f, s5, Classical);
    SignedSound(f, ReadSigned(f, s5, Classical).value.1, Pq);
  }

  lemma PairSound(f: Frames)
    requires Sound(f)
    ensures ElementSound(PairWriter(f), PairReader(f), PairShape)
  {
    forall s: bytes | ReadPair(f, s).Ok?
      ensures PairShape(ReadPair(f, s).value.0) && s == PutPair(f, ReadPair(f, s).value.0, ReadPair(f, s).value.1)
    {
      var s1 := ReadU32(f, s).value.1;
      SignedSound(f, s1, Classical);
      SignedSound(f, ReadSigned(f, s1, Classical).value.1, Pq);
    }
  }

  lemma OneTimeSound(f: Frames, kind: SignedKind)
    requires Sound(f)
    ensures ElementSound(OneTimeWriter(f), OneTimeReader(f, kind), OneTimeRule(kind))
  {
  }

  lemma PendingSound(f: Frames, s: bytes)
    requires Sound(f) && ReadPending(f, s).Ok?
    ensures PendingShape(ReadPending(f, s).value.0)
    ensures s == PutPending(f, ReadPending(f, s).value.0, ReadPending(f, s).value.1)
  {
  }

  lemma RetiredSound(f: Frames, s: bytes)
    requires Sound(f) && ReadRetired(f, s).Ok?
    ensures var (retired, t) := ReadRetired(f, s).value;
      |retired| <= MAX_RETIRED && All(PairShape, retired) && s == PutRetired(f, retired, t)
  {
    var (count, s1) := ReadU8(f, s).value;
    PairSound(f);
    ListSound(PairWriter(f), PairReader(f), PairShape, s1, count);
  }

  lemma OneTimesSound(f: Frames, s: bytes, kind: SignedKind)
    requires Sound(f) && ReadOneTimes(f, s, kind).Ok?
    ensures var (keys, t) := ReadOneTimes(f, s, kind).value;
      |keys| <= Cap(kind) && All(OneTimeRule(kind), keys) && s == PutOneTimes(f, keys, t)
  {
    var (count, s1) := ReadU16(f, s).value;
    OneTimeSound(f, kind);
    ListSound(OneTimeWriter(f), OneTimeReader(f, kind), OneTimeRule(kind), s1, count);
  }

  lemma TailSound(f: Frames, s: bytes)
    requires Sound(f) && ReadTail(f, s).Ok?
    ensures TailShape(ReadTail(f, s).value.0)
    ensures s == PutTail(f, ReadTail(f, s).value.0, ReadTail(f, s).value.1)
  {
    RetiredSound(f, s);
    var s1 := ReadRetired(f, s).value.1;
    OneTimesSound(f, s1, Classical);
    var s2 := ReadOneTimes(f, s1, Classical).value.1;
    OneTimesSound(f, s2, Pq);
    PendingSound(f, ReadOneTimes(f, s2, Pq).value.1);
  }

  // The readers read back what the writers write

  lemma SignedComplete(f: Frames, key: SignedKey, kind: SignedKind, t: bytes)
    requires Complete(f) && SignedShape(key, kind)
    ensures ReadSigned(f, PutSigned(f, key, t), kind) == Ok((key, t))
  {
  }

  lemma HeadComplete(f: Frames, x: Fixed, t: bytes)
    requires Complete(f)
    ensures ReadHead(f, PutHead(f, x, t))
         == Ok(((x.identity.userId, x.identity.registrationId, x.bundleVersion, x.nextClassical, x.nextPq), t))
  {
    var userId: Bytes16 := x.identity.userId;
  }

  lemma FixedComplete(f: Frames, x: Fixed, t: bytes)
    requires Complete(f) && FixedShape(x)
    ensures ReadFixed(f, PutFixed(f, x, t)) == Ok((x, t))
  {
    var s3 := f.put(x.crossSignature, t);
    var s2 := PutSigned(f, x.currentPq, s3);
    var s1 := PutSigned(f, x.currentClassical, s2);
    SignedComplete(f, x.currentPq, Pq, s3);
    SignedComplete(f, x.currentClassical, Classical, s2);
    HeadComplete(f, x, PutIdentityKeys(f, x.identity, s1));
    var a: Bytes32, b: Bytes32, c: Bytes32, e: Bytes32, cross: Bytes64 :=
      x.identity.signingPublic, x.identity.identityPublic, x.identity.signingSecret, x.identity.identitySecret,
      x.crossSignature;
  }

  lemma PairComplete(f: Frames)
    requires Complete(f)
    ensures ElementComplete(PairWriter(f), PairReader(f), PairShape)
  {
    forall pair: RetiredPair, t: bytes | PairShape(pair)
      ensures ReadPair(f, PutPair(f, pair, t)) == Ok((pair, t))
    {
      SignedComplete(f, pair.pq, Pq, t);
      SignedComplete(f, pair.classical, Classical, PutSigned(f, pair.pq, t));
    }
  }

  lemma OneTimeComplete(f: Frames, kind: SignedKind)
    requires Complete(f)
    ensures ElementComplete(OneTimeWriter(f), OneTimeReader(f, kind), OneTimeRule(kind))
  {
  }

  lemma PendingComplete(f: Frames, pending: Option<Pending>, t: bytes)
    requires Complete(f) && PendingShape(pending)
    ensures ReadPending(f, PutPending(f, pending, t)) == Ok((pending, t))
  {
    if pending.Some? {
      var id: Bytes16 := pending.value.batchId;
    }
  }

  lemma RetiredComplete(f: Frames, retired: seq<RetiredPair>, t: bytes)
    requires Complete(f) && |retired| <= MAX_RETIRED && All(PairShape, retired)
    ensures ReadRetired(f, PutRetired(f, retired, t)) == Ok((retired, t))
  {
    PairComplete(f);
    ListComplete(PairWriter(f), PairReader(f), PairShape, retired, t);
  }

  lemma OneTimesComplete(f: Frames, keys: seq<OneTimeKey>, kind: SignedKind, t: bytes)
    requires Complete(f) && |keys| <= Cap(kind) && All(OneTimeRule(kind), keys)
    ensures ReadOneTimes(f, PutOneTimes(f, keys, t), kind) == Ok((keys, t))
  {
    OneTimeComplete(f, kind);
    ListComplete(OneTimeWriter(f), OneTimeReader(f, kind), OneTimeRule(kind), keys, t);
  }

  lemma TailComplete(f: Frames, y: Tail, t: bytes)
    requires Complete(f) && TailShape(y)
    ensures ReadTail(f, PutTail(f, y, t)) == Ok((y, t))
  {
    var s3 := PutPending(f, y.pending, t);
    PendingComplete(f, y.pending, t);
    var s2 := PutOneTimes(f, y.pq, s3);
    OneTimesComplete(f, y.pq, Pq, s3);
    OneTimesComplete(f, y.classical, Classical, s2);
    RetiredComplete(f, y.retired, PutOneTimes(f, y.classical, s2));
  }
}
