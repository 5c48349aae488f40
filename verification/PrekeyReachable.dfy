/** Every state reachable from a migrated one has valid key material, encodes within the input
    bound, and reads back as itself. */
module PrekeyReachable {
  import opened Bytes
  import opened Lists
  import opened Frames
  import opened PrekeyState
  import opened PrekeyRuns
  import opened PrekeyRotation
  import opened PrekeyCodec
  import opened PrekeyBytes
  import opened PrekeyMigration
  import Framing

  // What is assumed of the primitives and of the randomness

  /** A signature made with a secret verifies under its public key. */
  ghost predicate Correct(pr: Primitives) {
    forall secret: bytes, message: bytes :: pr.sign(secret, message).Ok? ==>
      pr.verify(pr.verifyingKey(secret), message, pr.sign(secret, message).value) == Ok(())
  }

  /** An ML-KEM key pair has its standard sizes and layout. */
  ghost predicate GoodSupply(s: Supply) {
    forall i :: s.keypair(i).Ok? ==>
      && |s.keypair(i).value.0| == MLKEM_PUBLIC_BYTES && |s.keypair(i).value.1| == MLKEM_SECRET_BYTES
      && Embeds(s.keypair(i).value.1, s.keypair(i).value.0)
  }

  ghost predicate GoodEvent(e: Event) {
    (e.Replenishing? ==> GoodSupply(e.supply)) && (e.Rotating? ==> GoodSupply(e.rotationSupply))
  }

  ghost predicate GoodEvents(events: seq<Event>) {
    forall i :: 0 <= i < |events| ==> GoodEvent(events[i])
  }

  // The invariant

  const MAX_PROJECTION: nat := 126_033

  predicate SignedGood(pr: Primitives, id: Identity, kind: SignedKind, key: SignedKey) {
    SignedShape(key, kind) && ValidateSigned(pr, id, kind, key).Ok?
  }

  function PairRule(pr: Primitives, id: Identity): RetiredPair -> bool {
    (pair: RetiredPair) => SignedGood(pr, id, Classical, pair.classical) && SignedGood(pr, id, Pq, pair.pq)
  }

  function KeyRule(pr: Primitives, kind: SignedKind): OneTimeKey -> bool {
    (key: OneTimeKey) => OneTimeShape(key, kind) && ValidateHalf(pr, kind, key.public, key.secret).Ok?
  }

  predicate IdentityGood(pr: Primitives, id: Identity) {
    && !AllZero(id.userId) && pr.verifyingKey(id.signingSecret) == id.signingPublic
    && pr.x25519(id.identitySecret) == Ok(id.identityPublic)
  }

  predicate PendingGood(pending: Option<Pending>) {
    PendingShape(pending) && (pending.Some? ==> |pending.value.projection| <= MAX_PROJECTION)
  }

  predicate Held(pr: Primitives, d: Device) {
    && IdentityGood(pr, d.identity) && d.bundleVersion >= 1
    && SignedGood(pr, d.identity, Classical, d.currentClassical) && SignedGood(pr, d.identity, Pq, d.currentPq)
    && |d.retired| <= MAX_RETIRED && All(PairRule(pr, d.identity), d.retired)
    && All(KeyRule(pr, Classical), d.classical.keys) && All(KeyRule(pr, Pq), d.pq.keys)
    && PendingGood(d.pending)
  }

  // One-time keys

  lemma {:induction false} RefillGood(draw: nat -> Result<(bytes, bytes)>, rule: OneTimeKey -> bool, r: Refilled,
                                      i: nat, n: nat)
    requires i <= n && All(rule, r.pool.keys) && All(rule, r.made) && |r.made| <= i
    requires forall j: nat, id: u32 :: id <= KEY_ID_MAX && draw(j).Ok? ==>
      rule(OneTimeKey(id, draw(j).value.0, draw(j).value.1))
    ensures All(rule, Refill(draw, r, i, n).pool.keys) && All(rule, Refill(draw, r, i, n).made)
    ensures |Refill(draw, r, i, n).made| <= n
    decreases n - i
  {
    if i < n && TakeNextId(r.pool.next).Ok? {
      var (id, next) := TakeNextId(r.pool.next).value;
      var r1 := r.(pool := r.pool.(next := next), taken := r.taken + [id]);
      if draw(i).Ok? {
        var key := OneTimeKey(id, draw(i).value.0, draw(i).value.1);
        RefillGood(draw, rule, r1.(pool := r1.pool.(keys := r1.pool.keys + [key]), made := r1.made + [key]), i + 1, n);
      }
    }
  }

  lemma {:induction false} InsertAll(rule: OneTimeKey -> bool, key: OneTimeKey, keys: seq<OneTimeKey>)
    requires rule(key) && All(rule, keys)
    ensures All(rule, Insert(key, keys))
  {
    if keys != [] {
      InsertAll(rule, key, keys[1..]);
    }
  }

  lemma {:induction false} SortAll(rule: OneTimeKey -> bool, keys: seq<OneTimeKey>)
    requires All(rule, keys)
    ensures All(rule, SortById(keys))
  {
    if keys != [] {
      SortAll(rule, keys[1..]);
      InsertAll(rule, keys[0], SortById(keys[1..]));
    }
  }

  lemma ClassicalRefillGood(pr: Primitives, s: Supply, d: Device, demand: Demand)
    requires All(KeyRule(pr, Classical), d.classical.keys)
    ensures var r := ClassicalRefill(pr, s, d, demand);
      && All(KeyRule(pr, Classical), r.pool.keys) && All(KeyRule(pr, Classical), SortById(r.pool.keys))
      && All(KeyRule(pr, Classical), r.made) && |r.made| <= demand.AddClassical()
  {
    forall j: nat, id: u32 | id <= KEY_ID_MAX && ClassicalDraws(pr, s)(j).Ok?
      ensures KeyRule(pr, Classical)(OneTimeKey(id, ClassicalDraws(pr, s)(j).value.0, ClassicalDraws(pr, s)(j).value.1))
    {
      var secret: Bytes32 := s.secret(j).value;
      var public: Bytes32 := pr.x25519(secret).value;
    }
    RefillGood(ClassicalDraws(pr, s), KeyRule(pr, Classical), Refilled(Ok(()), d.classical, [], []), 0,
               demand.AddClassical());
    SortAll(KeyRule(pr, Classical), ClassicalRefill(pr, s, d, demand).pool.keys);
  }

  lemma PqRefillGood(pr: Primitives, s: Supply, d: Device, demand: Demand)
    requires All(KeyRule(pr, Pq), d.pq.keys) && GoodSupply(s)
    ensures var r := PqRefill(s, d, demand);
      && All(KeyRule(pr, Pq), r.pool.keys) && All(KeyRule(pr, Pq), SortById(r.pool.keys))
      && All(KeyRule(pr, Pq), r.made) && |r.made| <= demand.AddPq()
  {
    RefillGood(s.keypair, KeyRule(pr, Pq), Refilled(Ok(()), d.pq, [], []), 0, demand.AddPq());
    SortAll(KeyRule(pr, Pq), PqRefill(s, d, demand).pool.keys);
  }

  lemma ProjectionSize(pr: Primitives, batch: Bytes16, version: u32, classical: seq<OneTimeKey>, pq: seq<OneTimeKey>)
    requires All(KeyRule(pr, Classical), classical) && All(KeyRule(pr, Pq), pq)
    ensures |ReplenishProjection(batch, version, classical, pq)| == 33 + 36 * |classical| + 1188 * |pq|
  {
    ListSize(PutPublic, KeyRule(pr, Pq), 1188, pq, []);
    var tail := Framing.PutInt(|pq|, 2, PutList(PutPublic, pq, []));
    ListSize(PutPublic, KeyRule(pr, Classical), 36, classical, tail);
  }

  lemma ReplenishHeld(pr: Primitives, s: Supply, d: Device, demand: Demand)
    requires Held(pr, d) && GoodSupply(s)
    ensures Held(pr, Replenish(pr, s, d, demand).device)
  {
    ClassicalRefillGood(pr, s, d, demand);
    PqRefillGood(pr, s, d, demand);
    if Refills(s, d, demand) {
      var classical, pq := ClassicalRefill(pr, s, d, demand), PqRefill(s, d, demand);
      RefilledHeld(pr, d, classical.pool, d.pq);
      RefilledHeld(pr, d, classical.pool, pq.pool);
      var projection := ReplenishProjection(s.batch.value, d.bundleVersion, classical.made, pq.made);
      ProjectionSize(pr, s.batch.value, d.bundleVersion, classical.made, pq.made);
      RefilledHeld(pr, d.(pending := Some(Pending(s.batch.value, UPLOAD_REPLENISH, projection))),
                   classical.pool.(keys := SortById(classical.pool.keys)), pq.pool.(keys := SortById(pq.pool.keys)));
    }
  }

  /** Only the pools change. */
  lemma RefilledHeld(pr: Primitives, d: Device, classical: Pool, pq: Pool)
    requires Held(pr, d) && All(KeyRule(pr, Classical), classical.keys) && All(KeyRule(pr, Pq), pq.keys)
    ensures Held(pr, d.(classical := classical, pq := pq))
  {
  }

  // Signed keys

  lemma ReplacementGood(pr: Primitives, s: Supply, d: Device, package: bytes, deviceId: bytes, day: u32)
    requires Correct(pr) && GoodSupply(s) && IdentityGood(pr, d.identity)
    requires MakeReplacement(pr, s, d, package, deviceId, day).Ok?
    ensures var r := MakeReplacement(pr, s, d, package, deviceId, day).value;
      SignedGood(pr, d.identity, Classical, r.classical) && SignedGood(pr, d.identity, Pq, r.pq) && r.version >= 1
  {
    var r := MakeReplacement(pr, s, d, package, deviceId, day).value;
    var secret: Bytes32 := s.secret(0).value;
    var public: Bytes32 := pr.x25519(secret).value;
    var message := pr.message(Classical, d.identity.userId, r.classical.id, public).value;
    var signature: Bytes64 := pr.sign(d.identity.signingSecret, message).value;
    var pqMessage := pr.message(Pq, d.identity.userId, r.pq.id, r.pq.public).value;
    var pqSignature: Bytes64 := pr.sign(d.identity.signingSecret, pqMessage).value;
  }

  lemma {:induction false} RetainedAll(rule: RetiredPair -> bool, retired: seq<RetiredPair>, day: u32)
    requires All(rule, retired)
    ensures All(rule, Retained(retired, day)) && |Retained(retired, day)| <= |retired|
  {
    if retired != [] {
      RetainedAll(rule, retired[1..], day);
    }
  }

  lemma RotateHeld(pr: Primitives, s: Supply, d: Device, package: bytes, deviceId: bytes, day: u32)
    requires Correct(pr) && Held(pr, d) && GoodSupply(s)
    ensures Held(pr, Rotate(pr, s, d, package, deviceId, day).device)
  {
    if d.pending.None? && RotationDue(d, day) {
      RetainedAll(PairRule(pr, d.identity), d.retired, day);
      var d1 := Prune(d, day);
      var made := MakeReplacement(pr, s, d1, package, deviceId, day);
      if |d1.retired| < MAX_RETIRED && made.Ok? {
        ReplacementGood(pr, s, d1, package, deviceId, day);
        InstallHeld(pr, d1, made.value, day);
        if s.batch.Ok? {
          RotationSize(pr, d.identity, s.batch.value, made.value);
        }
      }
    }
  }

  lemma InstallHeld(pr: Primitives, d: Device, r: Replacement, day: u32)
    requires Held(pr, d) && |d.retired| < MAX_RETIRED && r.version >= 1
    requires SignedGood(pr, d.identity, Classical, r.classical) && SignedGood(pr, d.identity, Pq, r.pq)
    ensures Held(pr, Install(d, r, day))
  {
  }

  lemma RotationSize(pr: Primitives, id: Identity, batch: Bytes16, r: Replacement)
    requires SignedGood(pr, id, Classical, r.classical) && SignedGood(pr, id, Pq, r.pq)
    ensures |RotationProjection(batch, r)| == 1445
  {
    var cross: Bytes64 := r.cross;
  }

  // Runs

  lemma ConsumeHeld(pr: Primitives, d: Device, kind: SignedKind, id: u32)
    requires Held(pr, d)
    ensures Held(pr, Consume(d, kind, id).device)
  {
  }

  lemma NextHeld(pr: Primitives, d: Device, e: Event)
    requires Correct(pr) && Held(pr, d) && GoodEvent(e)
    ensures Held(pr, Next(pr, d, e))
  {
    match e
    case Replenishing(s, demand) => ReplenishHeld(pr, s, d, demand);
    case Committing(_) =>
    case Consuming(kind, id) => ConsumeHeld(pr, d, kind, id);
    case Rotating(s, package, deviceId, day) => RotateHeld(pr, s, d, package, deviceId, day);
    case Pruning(day) => RetainedAll(PairRule(pr, d.identity), d.retired, day);
  }

  lemma {:induction false} RunHeld(pr: Primitives, d: Device, events: seq<Event>)
    requires Correct(pr) && Held(pr, d) && GoodEvents(events)
    ensures Held(pr, Run(pr, d, events)) && Run(pr, d, events).identity == d.identity
    decreases |events|
  {
    if events != [] {
      assert GoodEvent(events[0]);
      NextHeld(pr, d, events[0]);
      RunHeld(pr, Next(pr, d, events[0]), events[1..]);
    }
  }

  // From the invariant to the bytes

  lemma {:induction false} PairsValidate(pr: Primitives, id: Identity, retired: seq<RetiredPair>)
    ensures All(PairRule(pr, id), retired) <==> All(PairShape, retired) && ValidatePairs(pr, id, retired).Ok?
  {
    if retired != [] {
      PairsValidate(pr, id, retired[1..]);
      assert retired == [retired[0]] + retired[1..];
    }
  }

  lemma {:induction false} KeysValidate(pr: Primitives, kind: SignedKind, keys: seq<OneTimeKey>)
    ensures All(KeyRule(pr, kind), keys) <==> All(OneTimeRule(kind), keys) && ValidateOneTimes(pr, kind, keys).Ok?
  {
    if keys != [] {
      KeysValidate(pr, kind, keys[1..]);
      assert keys == [keys[0]] + keys[1..];
    }
  }

  /** The state decodes as it stands: its shape is what the fields allow and every check passes. */
  lemma HeldIsValid(pr: Primitives, d: Device, classicalIds: seq<u32>, pqIds: seq<u32>)
    requires Held(pr, d) && PoolsOk(d, classicalIds, pqIds) && SignedOk(d, Classical) && SignedOk(d, Pq)
    ensures Shaped(d) && Consistent(d) && ValidateKeys(pr, d).Ok?
  {
    PairsValidate(pr, d.identity, d.retired);
    KeysValidate(pr, Classical, d.classical.keys);
    KeysValidate(pr, Pq, d.pq.keys);
    BelowHighWater(d.classical, classicalIds, MAX_CLASSICAL);
    BelowHighWater(d.pq, pqIds, MAX_PQ);
    SortedBoth(d.retired);
  }

  lemma BelowHighWater(pool: Pool, issued: seq<u32>, cap: nat)
    requires PoolOk(pool, issued, cap)
    ensures forall i :: 0 <= i < |pool.keys| ==> pool.keys[i].id < pool.next
    ensures SortedKeys(pool.keys)
  {
    forall i | 0 <= i < |pool.keys|
      ensures pool.keys[i].id < pool.next
    {
      var j :| 0 <= j < |issued| && issued[j] == pool.keys[i].id;
    }
  }

  lemma SortedBoth(retired: seq<RetiredPair>)
    requires AscendingPairs(retired, Classical) && AscendingPairs(retired, Pq)
    ensures SortedPairs(retired)
  {
    forall i, j | 0 <= i < |retired| && 0 <= j < |retired| && j == i + 1
      ensures retired[i].classical.id < retired[j].classical.id && retired[i].pq.id < retired[j].pq.id
    {
      assert Half(retired[i], Classical).id < Half(retired[j], Classical).id;
      assert Half(retired[i], Pq).id < Half(retired[j], Pq).id;
    }
  }

  const MAX_STATE_BYTES: nat := 1_029_824

  lemma SizeBound(retired: nat, classical: nat, pq: nat, pending: nat)
    requires retired <= MAX_RETIRED && classical <= MAX_CLASSICAL && pq <= MAX_PQ && pending <= 22 + MAX_PROJECTION
    ensures FIXED_BYTES + 5 + PAIR_BYTES * retired + CLASSICAL_BYTES * classical + PQ_BYTES * pq + pending
      + TAG_BYTES <= MAX_STATE_BYTES
  {
  }

  lemma HeldEncodes(pr: Primitives, d: Device, classicalIds: seq<u32>, pqIds: seq<u32>)
    requires Held(pr, d) && PoolsOk(d, classicalIds, pqIds) && SignedOk(d, Classical) && SignedOk(d, Pq)
    requires pr.authKey(d.identity.identitySecret).Ok?
    ensures Encode(pr, d).Ok? && |Encode(pr, d).value| <= MAX_STATE_BYTES
  {
    HeldIsValid(pr, d, classicalIds, pqIds);
    BodySize(ByteFrames(), d);
    SizeBound(|d.retired|, |d.classical.keys|, |d.pq.keys|, PendingBytes(d.pending));
    EncodesWithin(pr, BodyWriter(ByteFrames()), d);
  }

  lemma EncodesWithin(pr: Primitives, put: Device -> bytes, d: Device)
    requires |put(d)| + TAG_BYTES <= MAX_STATE_BYTES && pr.authKey(d.identity.identitySecret).Ok?
    requires |d.retired| <= MAX_RETIRED && |d.classical.keys| <= MAX_CLASSICAL && |d.pq.keys| <= MAX_PQ
    requires PendingGood(d.pending)
    ensures EncodeWith(pr, put, d).Ok? && |EncodeWith(pr, put, d).value| <= MAX_STATE_BYTES
  {
  }

  /** From any migrated state and through any operations, failed ones included, even with full key
      lists and a full pending batch: the state encodes, within the input bound, and the bytes
      decode to exactly that state. */
  lemma ReachableRoundTrip(pr: Primitives, input: bytes, migrationDay: u32, events: seq<Event>)
    requires Correct(pr) && Migrate(pr, ByteFrames(), input, migrationDay).Ok? && GoodEvents(events)
    requires pr.authKey(Migrate(pr, ByteFrames(), input, migrationDay).value.identity.identitySecret).Ok?
    ensures var d := Run(pr, Migrate(pr, ByteFrames(), input, migrationDay).value, events);
      && Encode(pr, d).Ok? && |Encode(pr, d).value| <= MAX_STATE_BYTES < MAX_INPUT_BYTES
      && Decode(pr, Encode(pr, d).value) == Ok(d)
  {
    MigrationYields(pr, ByteFrames(), input, migrationDay);
    ReachableFrom(pr, Migrate(pr, ByteFrames(), input, migrationDay).value, events);
  }

  lemma ReachableFrom(pr: Primitives, start: Device, events: seq<Event>)
    requires Correct(pr) && GoodEvents(events) && pr.authKey(start.identity.identitySecret).Ok?
    requires Migrated(start) && Shaped(start) && !AllZero(start.identity.userId) && ValidateKeys(pr, start).Ok?
    ensures var d := Run(pr, start, events);
      && Encode(pr, d).Ok? && |Encode(pr, d).value| <= MAX_STATE_BYTES && Decode(pr, Encode(pr, d).value) == Ok(d)
  {
    var d := Run(pr, start, events);
    MigratedHeld(pr, start);
    RunHeld(pr, start, events);
    SignedRun(pr, start, events, Classical);
    SignedRun(pr, start, events, Pq);
    IdsNeverReissued(pr, start, events);
    var classicalIds, pqIds :=
      Ids(start.classical.keys) + RunClassical(pr, start, events), Ids(start.pq.keys) + RunPq(pr, start, events);
    HeldIsValid(pr, d, classicalIds, pqIds);
    HeldEncodes(pr, d, classicalIds, pqIds);
    EncodeThenDecode(pr, d);
  }

  lemma MigratedHeld(pr: Primitives, d: Device)
    requires Migrated(d) && Shaped(d) && !AllZero(d.identity.userId) && ValidateKeys(pr, d).Ok?
    ensures Held(pr, d)
  {
    KeysValidate(pr, Classical, d.classical.keys);
    KeysValidate(pr, Pq, d.pq.keys);
  }
}
