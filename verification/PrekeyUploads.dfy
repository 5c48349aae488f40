/** What a replenishment or a rotation makes, exactly, and what the upload it leaves pending says to
    whoever reads it (prekey_state.rs). */
module PrekeyUploads {
  import opened Bytes
  import opened Lists
  import opened Frames
  import opened PrekeyState
  import opened PrekeyRuns
  import opened PrekeyCodec
  import opened PrekeyReachable
  import opened PrekeyMigration
  import opened PrekeyV1
  import Framing

  // When a refill succeeds, and what it makes

  /** The ids from a mark on, as many as are asked for, all within range. */
  predicate IdsLeft(next: u32, n: nat) {
    n == 0 || next + n - 1 <= KEY_ID_MAX
  }

  predicate AllDrawn(draw: nat -> Result<(bytes, bytes)>, i: nat, n: nat) {
    forall j :: i <= j < n ==> draw(j).Ok?
  }

  /** The mark after that many. */
  function MarkAfter(next: u32, n: nat): u32
    requires IdsLeft(next, n)
  {
    if n == 0 then next else if next + n - 1 == KEY_ID_MAX then U32_MAX else next + n
  }

  /** Consecutive ids, each with the key pair drawn for it. */
  predicate FreshKeys(keys: seq<OneTimeKey>, draw: nat -> Result<(bytes, bytes)>, next: u32, i: nat, n: nat) {
    && i <= n && |keys| == n - i
    && forall j :: 0 <= j < |keys| ==>
         && keys[j].id == next + j
         && draw(i + j) == Ok((keys[j].public, keys[j].secret))
  }

  lemma {:induction false} RefillExactly(draw: nat -> Result<(bytes, bytes)>, r: Refilled, i: nat, n: nat)
    returns (drawn: seq<OneTimeKey>)
    requires i <= n && r.result.Ok?
    ensures var f := Refill(draw, r, i, n);
      && (f.result.Ok? <==> IdsLeft(r.pool.next, n - i) && AllDrawn(draw, i, n))
      && (f.result.Ok? ==>
            && FreshKeys(drawn, draw, r.pool.next, i, n) && f.made == r.made + drawn
            && f.pool == Pool(MarkAfter(r.pool.next, n - i), r.pool.keys + drawn))
    decreases n - i
  {
    drawn := [];
    if i < n && TakeNextId(r.pool.next).Ok? && draw(i).Ok? {
      var (id, next) := TakeNextId(r.pool.next).value;
      var key := OneTimeKey(id, draw(i).value.0, draw(i).value.1);
      var r1 := Refilled(r.result, Pool(next, r.pool.keys + [key]), r.taken + [id], r.made + [key]);
      assert Refill(draw, r, i, n) == Refill(draw, r1, i + 1, n);
      var rest := RefillExactly(draw, r1, i + 1, n);
      drawn := [key] + rest;
      assert r.made + drawn == r1.made + rest && r.pool.keys + drawn == r1.pool.keys + rest;
    }
  }

  /** A refill succeeds exactly when ids and draws last, and appends the keys drawn under consecutive
      ids from the mark. */
  lemma RefillFromExactly(draw: nat -> Result<(bytes, bytes)>, pool: Pool, n: nat)
    ensures var f := RefillFrom(draw, pool, n);
      && (f.result.Ok? <==> IdsLeft(pool.next, n) && AllDrawn(draw, 0, n))
      && (f.result.Ok? ==>
            FreshKeys(f.made, draw, pool.next, 0, n) && f.pool == Pool(MarkAfter(pool.next, n), pool.keys + f.made))
  {
    var drawn := RefillExactly(draw, Refilled(Ok(()), pool, [], []), 0, n);
    assert [] + drawn == drawn;
  }

  // When a replenishment succeeds, and what it leaves

  predicate CanReplenish(pr: Primitives, s: Supply, d: Device, demand: Demand) {
    && Refills(s, d, demand)
    && IdsLeft(d.classical.next, demand.AddClassical()) && AllDrawn(ClassicalDraws(pr, s), 0, demand.AddClassical())
    && IdsLeft(d.pq.next, demand.AddPq()) && AllDrawn(s.keypair, 0, demand.AddPq())
  }

  /** What is added brings the server to its target, or adds nothing when it is there already. */
  lemma AddedIsWhatIsLacking(demand: Demand)
    ensures demand.serverClassical + demand.AddClassical()
      == if demand.serverClassical < demand.targetClassical then demand.targetClassical else demand.serverClassical
    ensures demand.serverPq + demand.AddPq()
      == if demand.serverPq < demand.targetPq then demand.targetPq else demand.serverPq
  {
  }

  /** The state with new keys behind those held, and the upload that names them. */
  function Replenished(d: Device, demand: Demand, batch: Bytes16, classical: seq<OneTimeKey>,
                       pq: seq<OneTimeKey>): Device
    requires IdsLeft(d.classical.next, demand.AddClassical()) && IdsLeft(d.pq.next, demand.AddPq())
  {
    d.(classical := Pool(MarkAfter(d.classical.next, demand.AddClassical()), d.classical.keys + classical),
       pq := Pool(MarkAfter(d.pq.next, demand.AddPq()), d.pq.keys + pq),
       pending := Some(Pending(batch, UPLOAD_REPLENISH, ReplenishProjection(batch, d.bundleVersion, classical, pq))))
  }

  /** After any run, with nothing pending, a replenishment succeeds exactly when the demand is in range,
      the lists have room, and ids and draws last. Then the whole new state is the old one with the keys
      drawn, under the next ids, behind those held, and their upload pending. */
  lemma ReplenishExactly(pr: Primitives, d: Device, events: seq<Event>, s: Supply, demand: Demand)
    returns (classical: seq<OneTimeKey>, pq: seq<OneTimeKey>)
    requires Migrated(d) && Run(pr, d, events).pending.None?
    ensures var before := Run(pr, d, events);
      var after := Replenish(pr, s, before, demand);
      && (after.result.Ok? <==> CanReplenish(pr, s, before, demand))
      && (after.result.Ok? ==>
            && FreshKeys(classical, ClassicalDraws(pr, s), before.classical.next, 0, demand.AddClassical())
            && FreshKeys(pq, s.keypair, before.pq.next, 0, demand.AddPq())
            && after.device == Replenished(before, demand, s.batch.value, classical, pq)
            && after.result == Ok((s.batch.value, after.device.pending.value.projection)))
  {
    var before := Run(pr, d, events);
    RefillFromExactly(ClassicalDraws(pr, s), before.classical, demand.AddClassical());
    RefillFromExactly(s.keypair, before.pq, demand.AddPq());
    classical, pq := ClassicalRefill(pr, s, before, demand).made, PqRefill(s, before, demand).made;
    if Refills(s, before, demand) {
      SortChangesNothing(pr, d, events, s, demand);
    }
  }

  // Reading an upload

  /** What a replenishment uploads: ids and public halves. */
  datatype Offer = Offer(batch: Bytes16, version: u32, classical: seq<(u32, bytes)>, pq: seq<(u32, bytes)>)

  function ReadOffer(f: Frames, s: bytes): Result<Offer> {
    var (magic, s) :- f.take(s, 8);
    var _ :- Check(magic == UPLOAD_MAGIC, UnsupportedVersion);
    var (batch, s) :- ReadArray(f, s, 16);
    var (kind, s) :- ReadU8(f, s);
    var _ :- Check(kind == UPLOAD_REPLENISH, MalformedInput);
    var (version, s) :- ReadU32(f, s);
    var (count, s) :- ReadU16(f, s);
    var (classical, s) :- ReadList(NumberedReader(f, Classical), s, count);
    var (count, s) :- ReadU16(f, s);
    var (pq, s) :- ReadList(NumberedReader(f, Pq), s, count);
    var _ :- Check(s == [], MalformedInput);
    Ok(Offer(batch, version, classical, pq))
  }

  function PutOffer(f: Frames, o: Offer): bytes {
    f.put(UPLOAD_MAGIC,
    f.put(o.batch,
    f.putInt(UPLOAD_REPLENISH, 1,
    f.putInt(o.version, 4,
    f.putInt(|o.classical|, 2, PutList(NumberedWriter(f), o.classical,
    f.putInt(|o.pq|, 2, PutList(NumberedWriter(f), o.pq, []))))))))
  }

  lemma OfferComplete(f: Frames, o: Offer, classical: seq<OneTimeKey>, pq: seq<OneTimeKey>)
    requires Complete(f) && |classical| <= U16_MAX && |pq| <= U16_MAX
    requires All(OneTimeRule(Classical), classical) && All(OneTimeRule(Pq), pq)
    requires o.classical == Publics(classical) && o.pq == Publics(pq)
    ensures ReadOffer(f, PutOffer(f, o)) == Ok(o)
  {
    var s := f.putInt(|o.pq|, 2, PutList(NumberedWriter(f), o.pq, []));
    PublicsComplete(f, pq, Pq, []);
    PublicsComplete(f, classical, Classical, s);
    var id: Bytes16 := o.batch;
  }

  lemma {:induction false} PublicsWritten(keys: seq<OneTimeKey>, t: bytes)
    ensures PutList(PutPublic, keys, t) == PutList(NumberedWriter(ByteFrames()), Publics(keys), t)
  {
    if keys != [] {
      PublicsWritten(keys[1..], t);
      assert Publics(keys)[1..] == Publics(keys[1..]);
    }
  }

  lemma OfferWritten(batch: Bytes16, version: u32, classical: seq<OneTimeKey>, pq: seq<OneTimeKey>)
    ensures ReplenishProjection(batch, version, classical, pq)
      == PutOffer(ByteFrames(), Offer(batch, version, Publics(classical), Publics(pq)))
  {
    var tail := Framing.PutInt(|pq|, 2, PutList(PutPublic, pq, []));
    PublicsWritten(pq, []);
    PublicsWritten(classical, tail);
    var rest := Framing.PutInt(version, 4, Framing.PutInt(|classical|, 2, PutList(PutPublic, classical, tail)));
    assert Framing.PutInt(UPLOAD_REPLENISH, 1, rest) == [UPLOAD_REPLENISH] + rest by {
      Framing.ReadPutInt(UPLOAD_REPLENISH, 1, rest);
    }
    assert UPLOAD_MAGIC + batch + [UPLOAD_REPLENISH] + rest == UPLOAD_MAGIC + (batch + ([UPLOAD_REPLENISH] + rest));
  }

  /** Whoever reads the upload of a replenishment gets its batch, the bundle version, and the id and
      public half of every key it made, in order. */
  lemma OfferReadsBack(batch: Bytes16, version: u32, classical: seq<OneTimeKey>, pq: seq<OneTimeKey>)
    requires All(OneTimeRule(Classical), classical) && All(OneTimeRule(Pq), pq)
    requires |classical| <= U16_MAX && |pq| <= U16_MAX
    ensures ReadOffer(ByteFrames(), ReplenishProjection(batch, version, classical, pq))
      == Ok(Offer(batch, version, Publics(classical), Publics(pq)))
  {
    ByteFramesComplete();
    OfferWritten(batch, version, classical, pq);
    OfferComplete(ByteFrames(), Offer(batch, version, Publics(classical), Publics(pq)), classical, pq);
  }

  lemma DrawnAreShaped(pr: Primitives, s: Supply, keys: seq<OneTimeKey>, next: u32, n: nat)
    requires FreshKeys(keys, ClassicalDraws(pr, s), next, 0, n) && IdsLeft(next, n)
    ensures All(OneTimeRule(Classical), keys)
  {
    forall j | 0 <= j < |keys|
      ensures OneTimeShape(keys[j], Classical)
    {
      assert ClassicalDraws(pr, s)(0 + j) == Ok((keys[j].public, keys[j].secret));
      var secret: Bytes32 := s.secret(j).value;
      var public: Bytes32 := pr.x25519(secret).value;
    }
  }

  lemma PairsAreShaped(s: Supply, keys: seq<OneTimeKey>, next: u32, n: nat)
    requires GoodSupply(s) && FreshKeys(keys, s.keypair, next, 0, n) && IdsLeft(next, n)
    ensures All(OneTimeRule(Pq), keys)
  {
    forall j | 0 <= j < |keys|
      ensures OneTimeShape(keys[j], Pq)
    {
      assert s.keypair(0 + j) == Ok((keys[j].public, keys[j].secret));
    }
  }

  /** After any run, the upload a replenishment answers with reads back as the keys it put behind those
      held: the same ids and public halves, under the current bundle version. */
  lemma UploadReadsBack(pr: Primitives, d: Device, events: seq<Event>, s: Supply, demand: Demand)
    requires Migrated(d) && Run(pr, d, events).pending.None? && GoodSupply(s)
    requires Replenish(pr, s, Run(pr, d, events), demand).result.Ok?
    ensures var before := Run(pr, d, events);
      var after := Replenish(pr, s, before, demand);
      && before.classical.keys <= after.device.classical.keys && before.pq.keys <= after.device.pq.keys
      && ReadOffer(ByteFrames(), after.result.value.1)
         == Ok(Offer(s.batch.value, before.bundleVersion,
                     Publics(after.device.classical.keys[|before.classical.keys|..]),
                     Publics(after.device.pq.keys[|before.pq.keys|..])))
  {
    var before := Run(pr, d, events);
    var after := Replenish(pr, s, before, demand);
    var classical, pq := ReplenishExactly(pr, d, events, s, demand);
    DrawnAreShaped(pr, s, classical, before.classical.next, demand.AddClassical());
    PairsAreShaped(s, pq, before.pq.next, demand.AddPq());
    OfferReadsBack(s.batch.value, before.bundleVersion, classical, pq);
    assert after.device.classical.keys[|before.classical.keys|..] == classical;
    assert after.device.pq.keys[|before.pq.keys|..] == pq;
  }

  /** What a rotation uploads. */
  datatype Bundle = Bundle(
    batch: Bytes16, version: u32, classicalId: u32, classicalPublic: bytes, classicalSignature: bytes,
    pqId: u32, pqPublic: bytes, pqSignature: bytes, cross: bytes)

  function ReadBundle(f: Frames, s: bytes): Result<Bundle> {
    var (magic, s) :- f.take(s, 8);
    var _ :- Check(magic == UPLOAD_MAGIC, UnsupportedVersion);
    var (batch, s) :- ReadArray(f, s, 16);
    var (kind, s) :- ReadU8(f, s);
    var _ :- Check(kind == UPLOAD_ROTATION, MalformedInput);
    var (version, s) :- ReadU32(f, s);
    var (classicalId, s) :- ReadU32(f, s);
    var (classicalPublic, s) :- ReadArray(f, s, X25519_BYTES);
    var (classicalSignature, s) :- ReadArray(f, s, SIGNATURE_BYTES);
    var (pqId, s) :- ReadU32(f, s);
    var (pqPublic, s) :- ReadArray(f, s, MLKEM_PUBLIC_BYTES);
    var (pqSignature, s) :- ReadArray(f, s, SIGNATURE_BYTES);
    var (cross, s) :- ReadArray(f, s, SIGNATURE_BYTES);
    var _ :- Check(s == [], MalformedInput);
    Ok(Bundle(batch, version, classicalId, classicalPublic, classicalSignature, pqId, pqPublic, pqSignature, cross))
  }

  function PutBundle(f: Frames, b: Bundle): bytes {
    f.put(UPLOAD_MAGIC,
    f.put(b.batch,
    f.putInt(UPLOAD_ROTATION, 1,
    f.putInt(b.version, 4,
    f.putInt(b.classicalId, 4, f.put(b.classicalPublic, f.put(b.classicalSignature,
    f.putInt(b.pqId, 4, f.put(b.pqPublic, f.put(b.pqSignature, f.put(b.cross, [])))))))))))
  }

  lemma BundleComplete(f: Frames, b: Bundle)
    requires Complete(f) && |b.classicalPublic| == X25519_BYTES && |b.pqPublic| == MLKEM_PUBLIC_BYTES
    requires |b.classicalSignature| == |b.pqSignature| == |b.cross| == SIGNATURE_BYTES
    ensures ReadBundle(f, PutBundle(f, b)) == Ok(b)
  {
    var id: Bytes16 := b.batch;
  }

  function BundleOf(batch: Bytes16, version: u32, classical: SignedKey, pq: SignedKey, cross: Bytes64): Bundle {
    Bundle(batch, version, classical.id, classical.public, classical.signature, pq.id, pq.public, pq.signature, cross)
  }

  lemma BundleWritten(batch: Bytes16, r: Replacement)
    ensures RotationProjection(batch, r)
      == PutBundle(ByteFrames(), BundleOf(batch, r.version, r.classical, r.pq, r.cross))
  {
    var last := r.pq.public + r.pq.signature + r.cross;
    assert last == r.pq.public + (r.pq.signature + (r.cross + []));
    var keys := Framing.PutInt(r.pq.id, 4, last);
    assert r.classical.public + r.classical.signature + keys == r.classical.public + (r.classical.signature + keys);
    var rest := Framing.PutInt(r.version, 4, Framing.PutInt(r.classical.id, 4,
                               r.classical.public + r.classical.signature + keys));
    assert Framing.PutInt(UPLOAD_ROTATION, 1, rest) == [UPLOAD_ROTATION] + rest by {
      Framing.ReadPutInt(UPLOAD_ROTATION, 1, rest);
    }
    assert UPLOAD_MAGIC + batch + [UPLOAD_ROTATION] + rest == UPLOAD_MAGIC + (batch + ([UPLOAD_ROTATION] + rest));
  }

  /** Whoever reads the upload of a rotation gets the new ids, public halves and signatures. */
  lemma BundleReadsBack(batch: Bytes16, r: Replacement)
    requires SignedShape(r.classical, Classical) && SignedShape(r.pq, Pq)
    ensures ReadBundle(ByteFrames(), RotationProjection(batch, r))
      == Ok(BundleOf(batch, r.version, r.classical, r.pq, r.cross))
  {
    ByteFramesComplete();
    BundleWritten(batch, r);
    BundleComplete(ByteFrames(), BundleOf(batch, r.version, r.classical, r.pq, r.cross));
  }

  // What a rotation leaves

  /** The cross signature on a bundle verifies under the key whose secret the identity package holds. */
  ghost predicate CrossVerifies(pr: Primitives, d: Device, package: bytes, deviceId: bytes) {
    var secret := pr.selfSigning(package, d.identity.userId);
    var message := pr.crossMessage(d.identity, deviceId, d.currentClassical.id, d.currentClassical.public,
                                   d.currentPq.id, d.currentPq.public, d.bundleVersion);
    && secret.Ok? && message.Ok?
    && pr.verify(pr.verifyingKey(secret.value), message.value, d.crossSignature) == Ok(())
  }

  lemma CrossMade(pr: Primitives, s: Supply, d: Device, package: bytes, deviceId: bytes, day: u32)
    requires Correct(pr) && MakeReplacement(pr, s, d, package, deviceId, day).Ok?
    ensures var r := MakeReplacement(pr, s, d, package, deviceId, day).value;
      && r.version == d.bundleVersion + 1 && CrossVerifies(pr, Install(d, r, day), package, deviceId)
      && r.classical.id == d.currentClassical.id + 1 && r.pq.id == d.currentPq.id + 1
      && r.classical.createdDay == r.pq.createdDay == day
      && s.secret(0) == Ok(r.classical.secret) && s.keypair(0) == Ok((r.pq.public, r.pq.secret))
  {
    var pair := s.keypair(0).value;
    assert pair == (pair.0, pair.1);
  }

  /** The pairs kept after a rotation: those still in their window, and the one it replaced. */
  function RetiredBy(d: Device, day: u32): seq<RetiredPair> {
    Retained(d.retired, day) + [RetiredPair(SaturatingAdd(day, RETENTION_DAYS), d.currentClassical, d.currentPq)]
  }

  /** A rotation that succeeds with nothing pending was due. It leaves the next bundle version, the
      drawn keys under the next ids with signatures that verify, a cross signature over exactly them
      that verifies, the old pair retired for eight days, and everything else as it was; the upload it
      leaves pending reads back as that bundle. */
  lemma RotationIs(pr: Primitives, s: Supply, d: Device, package: bytes, deviceId: bytes, day: u32)
    requires Correct(pr) && GoodSupply(s) && IdentityGood(pr, d.identity) && d.pending.None?
    requires Rotate(pr, s, d, package, deviceId, day).result.Ok?
    ensures var after := Rotate(pr, s, d, package, deviceId, day);
      var d' := after.device;
      && RotationDue(d, day) && d'.pending.Some? && d'.bundleVersion == d.bundleVersion + 1
      && d' == d.(bundleVersion := d'.bundleVersion, currentClassical := d'.currentClassical,
                  currentPq := d'.currentPq, crossSignature := d'.crossSignature, retired := RetiredBy(d, day),
                  pending := d'.pending)
      && d'.currentClassical.id == d.currentClassical.id + 1 && d'.currentPq.id == d.currentPq.id + 1
      && d'.currentClassical.createdDay == d'.currentPq.createdDay == day
      && s.secret(0) == Ok(d'.currentClassical.secret)
      && s.keypair(0) == Ok((d'.currentPq.public, d'.currentPq.secret))
    ensures var d' := Rotate(pr, s, d, package, deviceId, day).device;
      && SignedGood(pr, d.identity, Classical, d'.currentClassical) && SignedGood(pr, d.identity, Pq, d'.currentPq)
      && CrossVerifies(pr, d', package, deviceId)
    ensures var after := Rotate(pr, s, d, package, deviceId, day);
      var d', upload := after.device, after.device.pending.value;
      && s.batch == Ok(upload.batchId) && upload.kind == UPLOAD_ROTATION
      && after.result == Ok((upload.batchId, upload.projection))
      && ReadBundle(ByteFrames(), upload.projection)
         == Ok(BundleOf(upload.batchId, d'.bundleVersion, d'.currentClassical, d'.currentPq, d'.crossSignature))
  {
    var d1 := Prune(d, day);
    var r := MakeReplacement(pr, s, d1, package, deviceId, day).value;
    CrossMade(pr, s, d1, package, deviceId, day);
    ReplacementGood(pr, s, d1, package, deviceId, day);
    BundleReadsBack(s.batch.value, r);
  }
}
