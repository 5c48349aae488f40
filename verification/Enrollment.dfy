/** Preparing a new device (`prepare_device_with_provider` of enrollment.rs): the package it writes is
    the first state format, and migration accepts it. */
module Enrollment {
  import opened Bytes
  import opened Lists
  import opened Frames
  import opened Framing
  import opened PrekeyState
  import opened PrekeyRuns
  import opened PrekeyBytes
  import opened PrekeyMigration
  import opened PrekeyV1
  import opened PrekeyReachable

  const INITIAL_CLASSICAL: nat := 8
  const INITIAL_PQ: nat := 4

  /** The first `n` one-time keys, numbered from 1. A draw that fails ends it. */
  function FirstKeys(draw: nat -> Result<(bytes, bytes)>, n: nat): Result<seq<OneTimeKey>>
    requires n <= INITIAL_CLASSICAL
  {
    if n == 0 then Ok([])
    else
      var keys :- FirstKeys(draw, n - 1);
      var (public, secret) :- draw(n - 1);
      Ok(keys + [OneTimeKey(n, public, secret)])
  }

  /** The first three secrets drawn are the device's own. */
  function ClassicalAfter(pr: Primitives, s: Supply): nat -> Result<(bytes, bytes)> {
    i => ClassicalDraw(pr, s, i + 3)
  }

  /** The first key pair drawn is the signed one. */
  function PqAfter(s: Supply): nat -> Result<(bytes, bytes)> {
    i => s.keypair(i + 1)
  }

  datatype Signed = Signed(public: V1Public, secret: V1Secret, registrationId: u32)

  /** The device's own keys, its two signed prekeys, and its number and fingerprint. */
  function PrepareSigned(pr: Primitives, s: Supply, registration: Result<u32>, userId: Bytes16): Result<Signed> {
    var signingSecret :- s.secret(0);
    var identitySecret :- s.secret(1);
    var classicalSecret :- s.secret(2);
    var signingPublic := pr.verifyingKey(signingSecret);
    var identityPublic :- pr.x25519(identitySecret);
    var classicalPublic :- pr.x25519(classicalSecret);
    var message :- pr.message(Classical, userId, 1, classicalPublic);
    var classicalSignature :- pr.sign(signingSecret, message);
    var (pqPublic, pqSecret) :- s.keypair(0);
    var pqMessage :- pr.message(Pq, userId, 1, pqPublic);
    var pqSignature :- pr.sign(signingSecret, pqMessage);
    var random :- registration;
    var fingerprint :- pr.sha256(signingPublic + identityPublic);
    Ok(Signed(V1Public(signingPublic, identityPublic, classicalPublic, classicalSignature, pqPublic, pqSignature,
                       fingerprint),
              V1Secret(signingSecret, identitySecret, classicalSecret, pqSecret),
              random % 0x8000_0000))
  }

  function Prepare(pr: Primitives, s: Supply, registration: Result<u32>, userId: bytes): Result<V1> {
    if |userId| != 16 then Err(MalformedInput)
    else
      var signed :- PrepareSigned(pr, s, registration, userId);
      var classical :- FirstKeys(ClassicalAfter(pr, s), INITIAL_CLASSICAL);
      var pq :- FirstKeys(PqAfter(s), INITIAL_PQ);
      Ok(V1(V1Head(userId, signed.registrationId, 1, 1, INITIAL_CLASSICAL, INITIAL_PQ),
            signed.public, signed.secret, classical, pq))
  }

  // The package, as the loops build it

  lemma {:induction false} PutListSplit<T(!new)>(put: (T, bytes) -> bytes, xs: seq<T>, x: T, t: bytes)
    ensures PutList(put, xs + [x], t) == PutList(put, xs, put(x, t))
  {
    if xs == [] {
      assert xs + [x] == [x] && [x][1..] == [];
    } else {
      assert (xs + [x])[0] == xs[0] && (xs + [x])[1..] == xs[1..] + [x];
      PutListSplit(put, xs[1..], x, t);
    }
  }

  /** A writer that only prepends. */
  ghost predicate Prepends<T(!new)>(put: (T, bytes) -> bytes) {
    forall x: T, t: bytes :: put(x, t) == put(x, []) + t
  }

  lemma {:induction false} PutListPrepends<T(!new)>(put: (T, bytes) -> bytes, xs: seq<T>, t: bytes)
    requires Prepends(put)
    ensures PutList(put, xs, t) == PutList(put, xs, []) + t
  {
    if xs != [] {
      PutListPrepends(put, xs[1..], t);
      var rest := PutList(put, xs[1..], []);
      assert put(xs[0], rest + t) == put(xs[0], []) + (rest + t) == (put(xs[0], []) + rest) + t;
    }
  }

  lemma PutListNext<T(!new)>(put: (T, bytes) -> bytes, xs: seq<T>, x: T)
    requires Prepends(put)
    ensures PutList(put, xs + [x], []) == PutList(put, xs, []) + put(x, [])
  {
    PutListSplit(put, xs, x, []);
    PutListPrepends(put, xs, put(x, []));
  }

  function PublicBlock(keys: seq<OneTimeKey>): bytes {
    PutList(NumberedWriter(ByteFrames()), Publics(keys), [])
  }

  function SecretBlock(keys: seq<OneTimeKey>): bytes {
    PutList(SecretWriter(ByteFrames()), Secrets(keys), [])
  }

  lemma WritersPrepend()
    ensures Prepends(NumberedWriter(ByteFrames())) && Prepends(SecretWriter(ByteFrames()))
  {
    forall x: (u32, bytes), t: bytes
      ensures NumberedWriter(ByteFrames())(x, t) == NumberedWriter(ByteFrames())(x, []) + t
    {
      assert PutInt(x.0, 4, Put(x.1, t)) == PutInt(x.0, 4, Put(x.1, [])) + t;
    }
  }

  lemma BlocksNext(keys: seq<OneTimeKey>, key: OneTimeKey)
    ensures PublicBlock(keys + [key]) == PublicBlock(keys) + PutInt(key.id, 4, key.public)
    ensures SecretBlock(keys + [key]) == SecretBlock(keys) + key.secret
  {
    WritersPrepend();
    var f := ByteFrames();
    assert Publics(keys + [key]) == Publics(keys) + [(key.id, key.public)];
    assert Secrets(keys + [key]) == Secrets(keys) + [key.secret];
    PutListNext(NumberedWriter(f), Publics(keys), (key.id, key.public));
    PutListNext(SecretWriter(f), Secrets(keys), key.secret);
    assert Put(key.public, []) == key.public && Put(key.secret, []) == key.secret;
  }

  /** One of the two loops of `prepare_device_with_provider`: numbered public halves into one buffer,
      secrets into another. */
  method FillBlocks(draw: nat -> Result<(bytes, bytes)>, n: nat)
    returns (result: Result<()>, publics: bytes, secrets: bytes)
    requires n <= INITIAL_CLASSICAL
    ensures match FirstKeys(draw, n) {
      case Err(e) => result == Err(e)
      case Ok(keys) => result == Ok(()) && publics == PublicBlock(keys) && secrets == SecretBlock(keys)
    }
  {
    publics, secrets := [], [];
    ghost var keys: seq<OneTimeKey> := [];
    for i := 0 to n
      invariant FirstKeys(draw, i) == Ok(keys) && publics == PublicBlock(keys) && secrets == SecretBlock(keys)
    {
      match draw(i)
      case Err(e) =>
        FirstFailure(draw, i, n, e);
        return Err(e), publics, secrets;
      case Ok((public, secret)) =>
        publics := publics + PutInt(i + 1, 4, public);
        secrets := secrets + secret;
        BlocksNext(keys, OneTimeKey(i + 1, public, secret));
        keys := keys + [OneTimeKey(i + 1, public, secret)];
    }
    return Ok(()), publics, secrets;
  }

  lemma {:induction false} FirstFailure(draw: nat -> Result<(bytes, bytes)>, i: nat, n: nat, e: Error)
    requires i < n <= INITIAL_CLASSICAL && FirstKeys(draw, i).Ok? && draw(i) == Err(e)
    ensures FirstKeys(draw, n) == Err(e)
  {
    if n > i + 1 {
      FirstFailure(draw, i, n - 1, e);
    }
  }

  lemma HeadPrepends(h: V1Head, t: bytes)
    ensures PutV1Head(ByteFrames(), h, t) == PutV1Head(ByteFrames(), h, []) + t
  {
    var f := ByteFrames();
    var s2, e2 :=
      f.putInt(h.classicalCount, 2, f.putInt(h.pqCount, 2, t)),
      f.putInt(h.classicalCount, 2, f.putInt(h.pqCount, 2, []));
    assert s2 == e2 + t;
    var s1, e1 := f.putInt(h.registrationId, 4, f.putInt(h.classicalId, 4, f.putInt(h.pqId, 4, s2))),
                  f.putInt(h.registrationId, 4, f.putInt(h.classicalId, 4, f.putInt(h.pqId, 4, e2)));
    assert s1 == e1 + t;
    assert h.userId + s1 == (h.userId + e1) + t;
  }

  lemma PublicPrepends(p: V1Public, t: bytes)
    ensures PutV1Public(ByteFrames(), p, t) == PutV1Public(ByteFrames(), p, []) + t
  {
    var f := ByteFrames();
    var s1, e1 := f.put(p.pqPublic, f.put(p.pqSignature, f.put(p.fingerprint, t))),
                  f.put(p.pqPublic, f.put(p.pqSignature, f.put(p.fingerprint, [])));
    assert s1 == e1 + t;
    var s2, e2 :=
      f.put(p.classicalPublic, f.put(p.classicalSignature, s1)),
      f.put(p.classicalPublic, f.put(p.classicalSignature, e1));
    assert s2 == e2 + t;
    assert p.signingPublic + (p.identityPublic + s2) == (p.signingPublic + (p.identityPublic + e2)) + t;
  }

  lemma SecretPrepends(p: V1Secret, t: bytes)
    ensures PutV1Secret(ByteFrames(), p, t) == PutV1Secret(ByteFrames(), p, []) + t
  {
    var f := ByteFrames();
    var s1, e1 := f.put(p.classicalSecret, f.put(p.pqSecret, t)), f.put(p.classicalSecret, f.put(p.pqSecret, []));
    assert s1 == e1 + t;
    assert p.signingSecret + (p.identitySecret + s1) == (p.signingSecret + (p.identitySecret + e1)) + t;
  }

  /** The whole package, block by block. */
  lemma PackageIs(v: V1)
    ensures PutV1(ByteFrames(), v, [])
         == PutV1Head(ByteFrames(), v.head, []) + PutV1Public(ByteFrames(), v.public, [])
          + PublicBlock(v.classical) + PublicBlock(v.pq)
          + PutV1Secret(ByteFrames(), v.secret, []) + SecretBlock(v.classical) + SecretBlock(v.pq)
  {
    var f := ByteFrames();
    var s5 := SecretBlock(v.pq);
    var s4 := PutList(SecretWriter(f), Secrets(v.classical), s5);
    var s3 := PutV1Secret(f, v.secret, s4);
    var s2 := PutList(NumberedWriter(f), Publics(v.pq), s3);
    var s1 := PutList(NumberedWriter(f), Publics(v.classical), s2);
    WritersPrepend();
    PutListPrepends(SecretWriter(f), Secrets(v.classical), s5);
    SecretPrepends(v.secret, s4);
    PutListPrepends(NumberedWriter(f), Publics(v.pq), s3);
    PutListPrepends(NumberedWriter(f), Publics(v.classical), s2);
    PublicPrepends(v.public, s1);
    HeadPrepends(v.head, PutV1Public(f, v.public, s1));
    SevenBlocks(PutV1Head(f, v.head, []), PutV1Public(f, v.public, []), PublicBlock(v.classical), PublicBlock(v.pq),
                PutV1Secret(f, v.secret, []), SecretBlock(v.classical), s5);
  }

  lemma SevenBlocks(a: bytes, b: bytes, c: bytes, d: bytes, e: bytes, g: bytes, h: bytes)
    ensures a + (b + (c + (d + (e + (g + h))))) == a + b + c + d + e + g + h
  {
    assert e + (g + h) == e + g + h;
    assert c + (d + (e + g + h)) == c + d + e + g + h;
  }

  /** `prepare_device_with_provider`. */
  method PrepareDevice(pr: Primitives, s: Supply, registration: Result<u32>, userId: bytes)
    returns (package: Result<bytes>)
    ensures match Prepare(pr, s, registration, userId) {
      case Err(e) => package == Err(e)
      case Ok(v) => package == Ok(PutV1(ByteFrames(), v, []))
    }
  {
    if |userId| != 16 {
      return Err(MalformedInput);
    }
    var signed := PrepareSigned(pr, s, registration, userId);
    if signed.Err? {
      return Err(signed.error);
    }
    var made, classicalPublics, classicalSecrets := FillBlocks(ClassicalAfter(pr, s), INITIAL_CLASSICAL);
    if made.Err? {
      return Err(made.error);
    }
    var pqPublics, pqSecrets;
    made, pqPublics, pqSecrets := FillBlocks(PqAfter(s), INITIAL_PQ);
    if made.Err? {
      return Err(made.error);
    }
    PackageIs(Prepare(pr, s, registration, userId).value);
    var head := V1Head(userId, signed.value.registrationId, 1, 1, INITIAL_CLASSICAL, INITIAL_PQ);
    return Ok(PutV1Head(ByteFrames(), head, []) + PutV1Public(ByteFrames(), signed.value.public, [])
              + classicalPublics + pqPublics
              + PutV1Secret(ByteFrames(), signed.value.secret, []) + classicalSecrets + pqSecrets);
  }

  // Every draw is used once

  lemma {:induction false} FirstKeysDraw(draw: nat -> Result<(bytes, bytes)>, n: nat, i: nat)
    requires n <= INITIAL_CLASSICAL && FirstKeys(draw, n).Ok? && i < n
    ensures var keys := FirstKeys(draw, n).value;
      |keys| == n && draw(i).Ok? && keys[i] == OneTimeKey(i + 1, draw(i).value.0, draw(i).value.1)
  {
    if i < n - 1 {
      FirstKeysDraw(draw, n - 1, i);
    } else if n > 1 {
      FirstKeysDraw(draw, n - 1, 0);
    }
  }

  /** The secrets a package holds: the device's own three, then those of its one-time keys. */
  function SecretsOf(v: V1): seq<bytes> {
    [v.secret.signingSecret, v.secret.identitySecret, v.secret.classicalSecret] + Secrets(v.classical)
  }

  /** Its post-quantum pairs: the signed one, then the one-time ones. */
  function PairsOf(v: V1): seq<(bytes, bytes)> {
    [(v.public.pqPublic, v.secret.pqSecret)]
    + seq(|v.pq|, i requires 0 <= i < |v.pq| => (v.pq[i].public, v.pq[i].secret))
  }

  lemma SignedDraws(pr: Primitives, s: Supply, registration: Result<u32>, userId: Bytes16)
    requires PrepareSigned(pr, s, registration, userId).Ok?
    ensures var x := PrepareSigned(pr, s, registration, userId).value;
      && s.secret(0) == Ok(x.secret.signingSecret) && s.secret(1) == Ok(x.secret.identitySecret)
      && s.secret(2) == Ok(x.secret.classicalSecret) && s.keypair(0) == Ok((x.public.pqPublic, x.secret.pqSecret))
      && registration.Ok? && x.registrationId < 0x8000_0000
      && (x.registrationId == registration.value || x.registrationId == registration.value - 0x8000_0000)
  {
    var pair := s.keypair(0).value;
    assert pair == (pair.0, pair.1);
  }

  lemma ClassicalDrawn(pr: Primitives, s: Supply, i: nat)
    requires FirstKeys(ClassicalAfter(pr, s), INITIAL_CLASSICAL).Ok? && i < INITIAL_CLASSICAL
    ensures var keys := FirstKeys(ClassicalAfter(pr, s), INITIAL_CLASSICAL).value;
      |keys| == INITIAL_CLASSICAL && s.secret(i + 3) == Ok(keys[i].secret)
  {
    FirstKeysDraw(ClassicalAfter(pr, s), INITIAL_CLASSICAL, i);
  }

  lemma PqDrawn(s: Supply, i: nat)
    requires FirstKeys(PqAfter(s), INITIAL_PQ).Ok? && i < INITIAL_PQ
    ensures var keys := FirstKeys(PqAfter(s), INITIAL_PQ).value;
      |keys| == INITIAL_PQ && s.keypair(i + 1) == Ok((keys[i].public, keys[i].secret))
  {
    FirstKeysDraw(PqAfter(s), INITIAL_PQ, i);
    var pair := s.keypair(i + 1).value;
    assert pair == (pair.0, pair.1);
  }

  lemma PrepareParts(pr: Primitives, s: Supply, registration: Result<u32>, userId: bytes, v: V1)
    requires Prepare(pr, s, registration, userId) == Ok(v)
    ensures |userId| == 16 && v.head.userId == userId
    ensures FirstKeys(ClassicalAfter(pr, s), INITIAL_CLASSICAL) == Ok(v.classical)
    ensures FirstKeys(PqAfter(s), INITIAL_PQ) == Ok(v.pq)
    ensures var x := PrepareSigned(pr, s, registration, userId);
      && x.Ok? && v.head.registrationId == x.value.registrationId
      && v.public == x.value.public && v.secret == x.value.secret
  {
  }

  predicate Draws(s: Supply, v: V1) {
    && |SecretsOf(v)| == 11 && (forall i :: 0 <= i < 11 ==> s.secret(i) == Ok(SecretsOf(v)[i]))
    && |PairsOf(v)| == 5 && (forall i :: 0 <= i < 5 ==> s.keypair(i) == Ok(PairsOf(v)[i]))
  }

  lemma DrawsTogether(s: Supply, v: V1)
    requires s.secret(0) == Ok(v.secret.signingSecret) && s.secret(1) == Ok(v.secret.identitySecret)
    requires s.secret(2) == Ok(v.secret.classicalSecret) && s.keypair(0) == Ok((v.public.pqPublic, v.secret.pqSecret))
    requires |v.classical| == 8 && forall i :: 3 <= i < 11 ==> s.secret(i) == Ok(v.classical[i - 3].secret)
    requires |v.pq| == 4 && forall i :: 1 <= i < 5 ==> s.keypair(i) == Ok((v.pq[i - 1].public, v.pq[i - 1].secret))
    ensures Draws(s, v)
  {
  }

  /** A package is made of the first eleven secrets and five pairs drawn, each in one place; its device
      number is the random one without its top bit. */
  lemma DrawnOnce(pr: Primitives, s: Supply, registration: Result<u32>, userId: bytes, v: V1)
    requires Prepare(pr, s, registration, userId) == Ok(v)
    ensures Draws(s, v) && v.head.userId == userId && registration.Ok? && v.head.registrationId < 0x8000_0000
    ensures v.head.registrationId == registration.value || v.head.registrationId == registration.value - 0x8000_0000
  {
    PrepareParts(pr, s, registration, userId, v);
    SignedDraws(pr, s, registration, userId);
    forall i | 3 <= i < 11
      ensures |v.classical| == 8 && s.secret(i) == Ok(v.classical[i - 3].secret)
    {
      ClassicalDrawn(pr, s, i - 3);
    }
    forall i | 1 <= i < 5
      ensures |v.pq| == 4 && s.keypair(i) == Ok((v.pq[i - 1].public, v.pq[i - 1].secret))
    {
      PqDrawn(s, i - 1);
    }
    ClassicalDrawn(pr, s, 0);
    PqDrawn(s, 0);
    DrawsTogether(s, v);
  }

  // Migration accepts the package

  lemma {:induction false} FirstKeysAre(draw: nat -> Result<(bytes, bytes)>, rule: OneTimeKey -> bool, n: nat)
    requires n <= INITIAL_CLASSICAL && FirstKeys(draw, n).Ok?
    requires forall j: nat, id: u32 :: id <= KEY_ID_MAX && draw(j).Ok? ==>
      rule(OneTimeKey(id, draw(j).value.0, draw(j).value.1))
    ensures var keys := FirstKeys(draw, n).value;
      |keys| == n && All(rule, keys) && forall i :: 0 <= i < n ==> keys[i].id == i + 1
  {
    if n > 0 {
      FirstKeysAre(draw, rule, n - 1);
    }
  }

  lemma ClassicalKeysAre(pr: Primitives, s: Supply)
    requires FirstKeys(ClassicalAfter(pr, s), INITIAL_CLASSICAL).Ok?
    ensures var keys := FirstKeys(ClassicalAfter(pr, s), INITIAL_CLASSICAL).value;
      |keys| == INITIAL_CLASSICAL && All(KeyRule(pr, Classical), keys)
        && forall i :: 0 <= i < |keys| ==> keys[i].id == i + 1
  {
    forall j: nat, id: u32 | id <= KEY_ID_MAX && ClassicalAfter(pr, s)(j).Ok?
      ensures KeyRule(pr, Classical)(OneTimeKey(id, ClassicalAfter(pr, s)(j).value.0, ClassicalAfter(pr, s)(j).value.1))
    {
      var secret: Bytes32 := s.secret(j + 3).value;
      var public: Bytes32 := pr.x25519(secret).value;
    }
    FirstKeysAre(ClassicalAfter(pr, s), KeyRule(pr, Classical), INITIAL_CLASSICAL);
  }

  lemma PqKeysAre(pr: Primitives, s: Supply)
    requires GoodSupply(s) && FirstKeys(PqAfter(s), INITIAL_PQ).Ok?
    ensures var keys := FirstKeys(PqAfter(s), INITIAL_PQ).value;
      |keys| == INITIAL_PQ && All(KeyRule(pr, Pq), keys) && forall i :: 0 <= i < |keys| ==> keys[i].id == i + 1
  {
    FirstKeysAre(PqAfter(s), KeyRule(pr, Pq), INITIAL_PQ);
  }

  /** What the signed part of a prepared package satisfies. */
  predicate SignedPart(pr: Primitives, userId: Bytes16, x: Signed) {
    var p, q := x.public, x.secret;
    && pr.verifyingKey(q.signingSecret) == p.signingPublic
    && pr.x25519(q.identitySecret) == Ok(p.identityPublic)
    && pr.sha256(p.signingPublic + p.identityPublic) == Ok(p.fingerprint)
    && SignedGood(pr, SignedIdentity(userId, x), Classical,
                  SignedKey(1, 0, p.classicalPublic, p.classicalSignature, q.classicalSecret))
    && SignedGood(pr, SignedIdentity(userId, x), Pq, SignedKey(1, 0, p.pqPublic, p.pqSignature, q.pqSecret))
  }

  function SignedIdentity(userId: Bytes16, x: Signed): Identity {
    Identity(userId, x.registrationId, x.public.signingPublic, x.public.identityPublic,
             x.secret.signingSecret, x.secret.identitySecret)
  }

  lemma SignedPartGood(pr: Primitives, s: Supply, registration: Result<u32>, userId: Bytes16)
    requires Correct(pr) && GoodSupply(s) && PrepareSigned(pr, s, registration, userId).Ok?
    ensures SignedPart(pr, userId, PrepareSigned(pr, s, registration, userId).value)
  {
    var x := PrepareSigned(pr, s, registration, userId).value;
    var a: Bytes32, b: Bytes64, c: Bytes64, d: Bytes32 :=
      x.public.classicalPublic, x.public.classicalSignature, x.public.pqSignature, x.secret.classicalSecret;
    assert s.keypair(0).Ok?;
  }

  predicate Prepared(pr: Primitives, v: V1) {
    && SignedPart(pr, v.head.userId, Signed(v.public, v.secret, v.head.registrationId))
    && v.head.classicalId == 1 && v.head.pqId == 1
    && v.head.classicalCount == |v.classical| == INITIAL_CLASSICAL && v.head.pqCount == |v.pq| == INITIAL_PQ
    && All(KeyRule(pr, Classical), v.classical) && (forall i :: 0 <= i < |v.classical| ==> v.classical[i].id == i + 1)
    && All(KeyRule(pr, Pq), v.pq) && (forall i :: 0 <= i < |v.pq| ==> v.pq[i].id == i + 1)
  }

  lemma PrepareYields(pr: Primitives, s: Supply, registration: Result<u32>, userId: bytes, v: V1)
    requires Correct(pr) && GoodSupply(s) && Prepare(pr, s, registration, userId) == Ok(v)
    ensures Prepared(pr, v) && v.head.userId == userId
  {
    SignedPartGood(pr, s, registration, userId);
    ClassicalKeysAre(pr, s);
    PqKeysAre(pr, s);
  }

  lemma PreparedPasses(pr: Primitives, v: V1)
    requires Prepared(pr, v)
    ensures CheckV1(pr, v, []).Ok?
  {
  }

  /** The next ids follow the last of the first keys. */
  lemma NextIds(keys: seq<OneTimeKey>)
    requires 1 <= |keys| <= INITIAL_CLASSICAL && forall i :: 0 <= i < |keys| ==> keys[i].id == i + 1
    ensures InitialNextId(keys) == Ok(|keys| + 1)
  {
    MaxIsLast(keys);
  }

  lemma PreparedMaterial(pr: Primitives, v: V1, nextClassical: u32, nextPq: u32, migrationDay: u32)
    requires Prepared(pr, v)
    ensures ValidateMaterial(pr, V1Device(v, nextClassical, nextPq, migrationDay)).Ok?
  {
    KeysValidate(pr, Classical, v.classical);
    KeysValidate(pr, Pq, v.pq);
  }

  lemma PreparedAdmits(pr: Primitives, v: V1, migrationDay: u32)
    requires Prepared(pr, v)
    ensures Admit(pr, v, [], migrationDay) == Ok(V1Device(v, INITIAL_CLASSICAL + 1, INITIAL_PQ + 1, migrationDay))
  {
    PreparedPasses(pr, v);
    NextIds(v.classical);
    NextIds(v.pq);
    PreparedMaterial(pr, v, INITIAL_CLASSICAL + 1, INITIAL_PQ + 1, migrationDay);
  }

  lemma ZeroUserRefused(f: Frames, h: V1Head, t: bytes)
    requires Complete(f) && AllZero(h.userId) && h.classicalId <= KEY_ID_MAX && h.pqId <= KEY_ID_MAX
    ensures ReadV1Head(f, PutV1Head(f, h, t)) == Err(MalformedInput)
  {
    var id: Bytes16 := h.userId;
  }

  lemma PreparedOk(pr: Primitives, v: V1)
    requires Prepared(pr, v) && !AllZero(v.head.userId)
    ensures V1Counted(v)
  {
    KeysValidate(pr, Classical, v.classical);
    KeysValidate(pr, Pq, v.pq);
  }

  lemma PreparedMigrates(pr: Primitives, f: Frames, v: V1, migrationDay: u32)
    requires Complete(f) && Prepared(pr, v)
    ensures Migrate(pr, f, PutV1(f, v, []), migrationDay)
         == if AllZero(v.head.userId) then Err(MalformedInput)
            else Ok(V1Device(v, INITIAL_CLASSICAL + 1, INITIAL_PQ + 1, migrationDay))
  {
    if AllZero(v.head.userId) {
      ZeroUserRefused(f, v.head, PutV1Public(f, v.public, PutV1Keys(f, v, [])));
    } else {
      PreparedOk(pr, v);
      V1Complete(f, v, []);
      PreparedAdmits(pr, v, migrationDay);
    }
  }

  lemma PackageMigrates(pr: Primitives, v: V1, migrationDay: u32)
    requires Prepared(pr, v)
    ensures Migrate(pr, ByteFrames(), PutV1(ByteFrames(), v, []), migrationDay)
         == if AllZero(v.head.userId) then Err(MalformedInput)
            else Ok(V1Device(v, INITIAL_CLASSICAL + 1, INITIAL_PQ + 1, migrationDay))
  {
    ByteFramesComplete();
    PreparedMigrates(pr, ByteFrames(), v, migrationDay);
  }

  /** Every package enrollment writes migrates on every day, except for the all-zero user id, which
      enrollment takes and migration refuses. */
  lemma EnrolledMigrates(pr: Primitives, s: Supply, registration: Result<u32>, userId: bytes, v: V1, migrationDay: u32)
    requires Correct(pr) && GoodSupply(s) && Prepare(pr, s, registration, userId) == Ok(v)
    ensures Migrate(pr, ByteFrames(), PutV1(ByteFrames(), v, []), migrationDay)
         == if AllZero(userId) then Err(MalformedInput)
            else Ok(V1Device(v, INITIAL_CLASSICAL + 1, INITIAL_PQ + 1, migrationDay))
  {
    PrepareYields(pr, s, registration, userId, v);
    PackageMigrates(pr, v, migrationDay);
  }

  /** From enrollment on: whatever runs after the migration, the state encodes and reads back. */
  lemma EnrolledRoundTrip(pr: Primitives, s: Supply, registration: Result<u32>, userId: bytes, v: V1,
                          migrationDay: u32, events: seq<Event>)
    requires Correct(pr) && GoodSupply(s) && Prepare(pr, s, registration, userId) == Ok(v) && !AllZero(userId)
    requires GoodEvents(events) && pr.authKey(v.secret.identitySecret).Ok?
    ensures var d := Run(pr, V1Device(v, INITIAL_CLASSICAL + 1, INITIAL_PQ + 1, migrationDay), events);
      Encode(pr, d).Ok? && |Encode(pr, d).value| < MAX_INPUT_BYTES && Decode(pr, Encode(pr, d).value) == Ok(d)
  {
    EnrolledMigrates(pr, s, registration, userId, v, migrationDay);
    ReachableRoundTrip(pr, PutV1(ByteFrames(), v, []), migrationDay, events);
  }
}
