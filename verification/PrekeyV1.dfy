/** The bytes of the first state format: what `decode_v1` of prekey_state.rs reads is one byte string
    for each value. */
module PrekeyV1 {
  import opened Bytes
  import opened Lists
  import opened Frames
  import opened PrekeyState
  import opened PrekeyCodec
  import opened PrekeyMigration

  function PutV1Head(f: Frames, h: V1Head, t: bytes): bytes {
    f.put(DEVICE_V1_MAGIC,
    f.put(h.userId,
    f.putInt(h.registrationId, 4,
    f.putInt(h.classicalId, 4,
    f.putInt(h.pqId, 4,
    f.putInt(h.classicalCount, 2,
    f.putInt(h.pqCount, 2, t)))))))
  }

  function PutV1Public(f: Frames, p: V1Public, t: bytes): bytes {
    f.put(p.signingPublic,
    f.put(p.identityPublic,
    f.put(p.classicalPublic,
    f.put(p.classicalSignature,
    f.put(p.pqPublic,
    f.put(p.pqSignature,
    f.put(p.fingerprint, t)))))))
  }

  function PutV1Secret(f: Frames, p: V1Secret, t: bytes): bytes {
    f.put(p.signingSecret, f.put(p.identitySecret, f.put(p.classicalSecret, f.put(p.pqSecret, t))))
  }

  function NumberedWriter(f: Frames): ((u32, bytes), bytes) -> bytes {
    (x: (u32, bytes), t: bytes) => f.putInt(x.0, 4, f.put(x.1, t))
  }

  function SecretWriter(f: Frames): (bytes, bytes) -> bytes {
    (x: bytes, t: bytes) => f.put(x, t)
  }

  function Publics(keys: seq<OneTimeKey>): seq<(u32, bytes)> {
    seq(|keys|, i requires 0 <= i < |keys| => (keys[i].id, keys[i].public))
  }

  function Secrets(keys: seq<OneTimeKey>): seq<bytes> {
    seq(|keys|, i requires 0 <= i < |keys| => keys[i].secret)
  }

  lemma ZipBack(keys: seq<OneTimeKey>)
    ensures Zip(Publics(keys), Secrets(keys)) == keys
  {
  }

  lemma ZipParts(publics: seq<(u32, bytes)>, secrets: seq<bytes>)
    requires |publics| == |secrets|
    ensures Publics(Zip(publics, secrets)) == publics && Secrets(Zip(publics, secrets)) == secrets
  {
  }

  function PutV1(f: Frames, v: V1, t: bytes): bytes {
    PutV1Head(f, v.head, PutV1Public(f, v.public, PutV1Keys(f, v, t)))
  }

  function PutV1Keys(f: Frames, v: V1, t: bytes): bytes {
    PutList(NumberedWriter(f), Publics(v.classical), PutList(NumberedWriter(f), Publics(v.pq),
      PutV1Secret(f, v.secret,
                  PutList(SecretWriter(f), Secrets(v.classical), PutList(SecretWriter(f), Secrets(v.pq), t)))))
  }

  /** The counts in the head are those of the lists. */
  predicate V1Counted(v: V1) {
    V1Ok(v) && v.head.classicalCount == |v.classical| && v.head.pqCount == |v.pq|
  }

  function NumberedRule(kind: SignedKind): ((u32, bytes)) -> bool {
    (x: (u32, bytes)) => NumberedShape(kind, x)
  }

  function SecretRule(kind: SignedKind): bytes -> bool {
    (x: bytes) => |x| == SecretBytes(kind)
  }

  lemma KeysSplit(keys: seq<OneTimeKey>, kind: SignedKind)
    requires All(OneTimeRule(kind), keys)
    ensures All(NumberedRule(kind), Publics(keys)) && All(SecretRule(kind), Secrets(keys))
  {
    forall i | 0 <= i < |keys|
      ensures NumberedShape(kind, Publics(keys)[i]) && |Secrets(keys)[i]| == SecretBytes(kind)
    {
      assert OneTimeRule(kind)(keys[i]);
    }
  }

  // Every value reads back

  lemma HeadComplete(f: Frames, h: V1Head, t: bytes)
    requires Complete(f) && !AllZero(h.userId) && h.classicalId <= KEY_ID_MAX && h.pqId <= KEY_ID_MAX
    requires 1 <= h.classicalCount <= MAX_V1_CLASSICAL && 1 <= h.pqCount <= MAX_V1_PQ
    ensures ReadV1Head(f, PutV1Head(f, h, t)) == Ok((h, t))
  {
    var id: Bytes16 := h.userId;
  }

  lemma PublicComplete(f: Frames, p: V1Public, t: bytes)
    requires Complete(f) && |p.pqPublic| == MLKEM_PUBLIC_BYTES
    ensures ReadV1Public(f, PutV1Public(f, p, t)) == Ok((p, t))
  {
    var a: Bytes32, b: Bytes32, c: Bytes32, d: Bytes64 :=
      p.signingPublic, p.identityPublic, p.classicalPublic, p.classicalSignature;
    var e: Bytes64, g: Bytes32 := p.pqSignature, p.fingerprint;
  }

  lemma SecretComplete(f: Frames, p: V1Secret, t: bytes)
    requires Complete(f) && |p.pqSecret| == MLKEM_SECRET_BYTES
    ensures ReadV1Secret(f, PutV1Secret(f, p, t)) == Ok((p, t))
  {
    var a: Bytes32, b: Bytes32, c: Bytes32 := p.signingSecret, p.identitySecret, p.classicalSecret;
  }

  lemma PublicsComplete(f: Frames, keys: seq<OneTimeKey>, kind: SignedKind, t: bytes)
    requires Complete(f) && All(OneTimeRule(kind), keys)
    ensures ReadList(NumberedReader(f, kind), PutList(NumberedWriter(f), Publics(keys), t), |keys|)
      == Ok((Publics(keys), t))
  {
    KeysSplit(keys, kind);
    ListComplete(NumberedWriter(f), NumberedReader(f, kind), NumberedRule(kind), Publics(keys), t);
  }

  lemma SecretsComplete(f: Frames, keys: seq<OneTimeKey>, kind: SignedKind, t: bytes)
    requires Complete(f) && All(OneTimeRule(kind), keys)
    ensures ReadList(SecretReader(f, kind), PutList(SecretWriter(f), Secrets(keys), t), |keys|)
      == Ok((Secrets(keys), t))
  {
    KeysSplit(keys, kind);
    ListComplete(SecretWriter(f), SecretReader(f, kind), SecretRule(kind), Secrets(keys), t);
  }

  lemma V1Complete(f: Frames, v: V1, t: bytes)
    requires Complete(f) && V1Counted(v)
    ensures ReadV1(f, PutV1(f, v, t)) == Ok((v, t))
  {
    var s6 := PutList(SecretWriter(f), Secrets(v.pq), t);
    var s5 := PutList(SecretWriter(f), Secrets(v.classical), s6);
    var s4 := PutV1Secret(f, v.secret, s5);
    var s3 := PutList(NumberedWriter(f), Publics(v.pq), s4);
    var s2 := PutList(NumberedWriter(f), Publics(v.classical), s3);
    HeadComplete(f, v.head, PutV1Public(f, v.public, s2));
    PublicComplete(f, v.public, s2);
    PublicsComplete(f, v.classical, Classical, s3);
    PublicsComplete(f, v.pq, Pq, s4);
    SecretComplete(f, v.secret, s5);
    SecretsComplete(f, v.classical, Classical, s6);
    SecretsComplete(f, v.pq, Pq, t);
    ZipBack(v.classical);
    ZipBack(v.pq);
  }

  // And nothing else is read

  lemma HeadSound(f: Frames, s: bytes)
    requires Sound(f) && ReadV1Head(f, s).Ok?
    ensures s == PutV1Head(f, ReadV1Head(f, s).value.0, ReadV1Head(f, s).value.1)
  {
  }

  lemma PublicSound(f: Frames, s: bytes)
    requires Sound(f) && ReadV1Public(f, s).Ok?
    ensures s == PutV1Public(f, ReadV1Public(f, s).value.0, ReadV1Public(f, s).value.1)
  {
  }

  lemma SecretSound(f: Frames, s: bytes)
    requires Sound(f) && ReadV1Secret(f, s).Ok?
    ensures s == PutV1Secret(f, ReadV1Secret(f, s).value.0, ReadV1Secret(f, s).value.1)
  {
  }

  lemma PublicsSound(f: Frames, s: bytes, kind: SignedKind, n: nat)
    requires Sound(f) && ReadList(NumberedReader(f, kind), s, n).Ok?
    ensures var (xs, t) := ReadList(NumberedReader(f, kind), s, n).value; s == PutList(NumberedWriter(f), xs, t)
  {
    ListSound(NumberedWriter(f), NumberedReader(f, kind), NumberedRule(kind), s, n);
  }

  lemma SecretsSound(f: Frames, s: bytes, kind: SignedKind, n: nat)
    requires Sound(f) && ReadList(SecretReader(f, kind), s, n).Ok?
    ensures var (xs, t) := ReadList(SecretReader(f, kind), s, n).value; s == PutList(SecretWriter(f), xs, t)
  {
    ListSound(SecretWriter(f), SecretReader(f, kind), SecretRule(kind), s, n);
  }

  lemma V1Sound(f: Frames, s: bytes)
    requires Sound(f) && ReadV1(f, s).Ok?
    ensures V1Counted(ReadV1(f, s).value.0) && s == PutV1(f, ReadV1(f, s).value.0, ReadV1(f, s).value.1)
  {
    V1Shape(f, s);
    var (head, s1) := ReadV1Head(f, s).value;
    var s2 := ReadV1Public(f, s1).value.1;
    var (classicalPublics, s3) := ReadList(NumberedReader(f, Classical), s2, head.classicalCount).value;
    var (pqPublics, s4) := ReadList(NumberedReader(f, Pq), s3, head.pqCount).value;
    var s5 := ReadV1Secret(f, s4).value.1;
    var (classicalSecrets, s6) := ReadList(SecretReader(f, Classical), s5, head.classicalCount).value;
    var pqSecrets := ReadList(SecretReader(f, Pq), s6, head.pqCount).value.0;
    HeadSound(f, s);
    PublicSound(f, s1);
    PublicsSound(f, s2, Classical, head.classicalCount);
    PublicsSound(f, s3, Pq, head.pqCount);
    SecretSound(f, s4);
    SecretsSound(f, s5, Classical, head.classicalCount);
    SecretsSound(f, s6, Pq, head.pqCount);
    ZipParts(classicalPublics, classicalSecrets);
    ZipParts(pqPublics, pqSecrets);
  }
}
