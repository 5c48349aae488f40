/** The device's prekey state and the operations that change it (prekey_state.rs).

    Each operation is a function from the state to a result and a next state, refusals included: a
    refused operation may already have moved the state, and the functions say how far. The class
    `DeviceState` runs the same operations in place and is proved to compute those functions. */
module PrekeyState {
  import opened Bytes
  import opened Lists
  import Framing

  const KEY_ID_MAX: nat := 0x7fff_ffff
  const MAX_CLASSICAL: nat := 400
  const MAX_PQ: nat := 240
  const MAX_RETIRED: nat := 3
  const MAX_BACKEND_CLASSICAL: nat := 200
  const MAX_BACKEND_PQ: nat := 100
  const UPLOAD_MAGIC: bytes := [67, 80, 75, 85, 86, 48, 48, 49]
  const UPLOAD_REPLENISH: byte := 1
  const UPLOAD_ROTATION: byte := 2
  const ROTATION_DAYS: nat := 7
  const RETENTION_DAYS: nat := 8

  // The state

  datatype SignedKey = SignedKey(id: u32, createdDay: u32, public: bytes, signature: bytes, secret: bytes)

  datatype RetiredPair = RetiredPair(retainThrough: u32, classical: SignedKey, pq: SignedKey)

  datatype OneTimeKey = OneTimeKey(id: u32, public: bytes, secret: bytes)

  /** The one-time keys of one kind, and the id the next one gets. */
  datatype Pool = Pool(next: u32, keys: seq<OneTimeKey>)

  datatype Pending = Pending(batchId: Bytes16, kind: byte, projection: bytes)

  datatype Identity = Identity(
    userId: Bytes16, registrationId: u32,
    signingPublic: Bytes32, identityPublic: Bytes32, signingSecret: Bytes32, identitySecret: Bytes32)

  datatype Device = Device(
    identity: Identity,
    bundleVersion: u32,
    classical: Pool,
    pq: Pool,
    currentClassical: SignedKey,
    currentPq: SignedKey,
    crossSignature: Bytes64,
    retired: seq<RetiredPair>,
    pending: Option<Pending>)

  datatype Outcome<+T> = Outcome(result: Result<T>, device: Device)

  // What the state is built from, left abstract

  datatype SignedKind = Classical | Pq

  /** The pure primitives. `message` is what a signed prekey's signature covers, `crossMessage` what
      the cross signature covers, and `selfSigning` finds the signing secret in an identity package. */
  datatype Primitives = Primitives(
    x25519: bytes -> Result<Bytes32>,
    verifyingKey: bytes -> Bytes32,
    sign: (bytes, bytes) -> Result<Bytes64>,
    verify: (bytes, bytes, bytes) -> Result<()>,
    sha256: bytes -> Result<Bytes32>,
    hmac: (bytes, bytes) -> Bytes32,
    authKey: bytes -> Result<bytes>,
    message: (SignedKind, bytes, u32, bytes) -> Result<bytes>,
    crossMessage: (Identity, bytes, u32, bytes, u32, bytes, u32) -> Result<bytes>,
    selfSigning: (bytes, bytes) -> Result<bytes>)

  /** The randomness one operation draws. Any draw may fail. */
  datatype Supply = Supply(
    batch: Result<Bytes16>,
    secret: nat -> Result<Bytes32>,
    keypair: nat -> Result<(bytes, bytes)>)

  // One-time keys

  /** `take_next_id`: the id handed out, and the next high-water mark. */
  function TakeNextId(next: u32): Result<(u32, u32)> {
    if next > KEY_ID_MAX then Err(StateViolation)
    else if next == KEY_ID_MAX then Ok((next, U32_MAX))
    else Ok((next, next + 1))
  }

  /** Where a refill ended: the pool, the ids it took, the keys it made, and the error if any. */
  datatype Refilled = Refilled(result: Result<()>, pool: Pool, taken: seq<u32>, made: seq<OneTimeKey>)

  /** One of the two loops of `prepare_replenishment`: take an id, draw a key pair, append. */
  function Refill(draw: nat -> Result<(bytes, bytes)>, r: Refilled, i: nat, n: nat): Refilled
    requires i <= n
    decreases n - i
  {
    if i == n then r
    else
      match TakeNextId(r.pool.next)
      case Err(e) => r.(result := Err(e))
      case Ok((id, next)) =>
        var r := r.(pool := r.pool.(next := next), taken := r.taken + [id]);
        match draw(i)
        case Err(e) => r.(result := Err(e))
        case Ok((public, secret)) =>
          var key := OneTimeKey(id, public, secret);
          Refill(draw, r.(pool := r.pool.(keys := r.pool.keys + [key]), made := r.made + [key]), i + 1, n)
  }

  function RefillFrom(draw: nat -> Result<(bytes, bytes)>, pool: Pool, n: nat): Refilled {
    Refill(draw, Refilled(Ok(()), pool, [], []), 0, n)
  }

  function ClassicalDraw(pr: Primitives, s: Supply, i: nat): Result<(bytes, bytes)> {
    var secret :- s.secret(i);
    var public :- pr.x25519(secret);
    Ok((public, secret))
  }

  function ClassicalDraws(pr: Primitives, s: Supply): nat -> Result<(bytes, bytes)> {
    i => ClassicalDraw(pr, s, i)
  }

  function Insert(key: OneTimeKey, keys: seq<OneTimeKey>): seq<OneTimeKey> {
    if keys == [] || key.id <= keys[0].id then [key] + keys else [keys[0]] + Insert(key, keys[1..])
  }

  /** `sort_unstable_by_key` on the id. */
  function SortById(keys: seq<OneTimeKey>): seq<OneTimeKey> {
    if keys == [] then [] else Insert(keys[0], SortById(keys[1..]))
  }

  function SaturatingSub(a: nat, b: nat): nat {
    if a <= b then 0 else a - b
  }

  function SaturatingAdd(a: u32, b: nat): u32 {
    if a + b > U32_MAX then U32_MAX else a + b
  }

  function PutPublic(key: OneTimeKey, t: bytes): bytes {
    Framing.PutInt(key.id, 4, Framing.Put(key.public, t))
  }

  function ReplenishProjection(batch: Bytes16, version: u32, classical: seq<OneTimeKey>, pq: seq<OneTimeKey>): bytes {
    UPLOAD_MAGIC + batch + [UPLOAD_REPLENISH]
    + Framing.PutInt(version, 4,
      Framing.PutInt(|classical|, 2, PutList(PutPublic, classical,
      Framing.PutInt(|pq|, 2, PutList(PutPublic, pq, [])))))
  }

  /** What the server asks for. */
  datatype Demand = Demand(serverClassical: u16, serverPq: u16, targetClassical: u16, targetPq: u16) {
    predicate InRange() {
      && targetClassical <= MAX_BACKEND_CLASSICAL && targetPq <= MAX_BACKEND_PQ
      && serverClassical <= MAX_BACKEND_CLASSICAL && serverPq <= MAX_BACKEND_PQ
    }

    function AddClassical(): nat {
      SaturatingSub(targetClassical, serverClassical)
    }

    function AddPq(): nat {
      SaturatingSub(targetPq, serverPq)
    }
  }

  /** Whether `prepare_replenishment` gets as far as making keys. */
  predicate Refills(s: Supply, d: Device, demand: Demand) {
    && d.pending.None? && demand.InRange()
    && |d.classical.keys| + demand.AddClassical() <= MAX_CLASSICAL && |d.pq.keys| + demand.AddPq() <= MAX_PQ
    && s.batch.Ok?
  }

  function ClassicalRefill(pr: Primitives, s: Supply, d: Device, demand: Demand): Refilled {
    RefillFrom(ClassicalDraws(pr, s), d.classical, demand.AddClassical())
  }

  function PqRefill(s: Supply, d: Device, demand: Demand): Refilled {
    RefillFrom(s.keypair, d.pq, demand.AddPq())
  }

  /** `prepare_replenishment`. */
  function Replenish(pr: Primitives, s: Supply, d: Device, demand: Demand): Outcome<(bytes, bytes)> {
    if d.pending.Some? then Outcome(Ok((d.pending.value.batchId, d.pending.value.projection)), d)
    else if !demand.InRange() then Outcome(Err(InvalidArgument), d)
    else if |d.classical.keys| + demand.AddClassical() > MAX_CLASSICAL || |d.pq.keys| + demand.AddPq() > MAX_PQ
    then Outcome(Err(ResourceExhausted), d)
    else
      match s.batch
      case Err(e) => Outcome(Err(e), d)
      case Ok(batch) =>
        var classical := ClassicalRefill(pr, s, d, demand);
        var d1 := d.(classical := classical.pool);
        if classical.result.Err? then Outcome(Err(classical.result.error), d1)
        else
          var pq := PqRefill(s, d, demand);
          var d2 := d1.(pq := pq.pool);
          if pq.result.Err? then Outcome(Err(pq.result.error), d2)
          else
            var projection := ReplenishProjection(batch, d.bundleVersion, classical.made, pq.made);
            Outcome(Ok((batch, projection)),
                    d2.(classical := d2.classical.(keys := SortById(d2.classical.keys)),
                        pq := d2.pq.(keys := SortById(d2.pq.keys)),
                        pending := Some(Pending(batch, UPLOAD_REPLENISH, projection))))
  }

  /** `commit_pending_upload`. */
  function Commit(d: Device, batchId: Bytes16): Outcome<()> {
    if d.pending.None? || d.pending.value.batchId != batchId then Outcome(Err(StateViolation), d)
    else Outcome(Ok(()), d.(pending := None))
  }

  /** The first position of an id, or the length. */
  function Position(keys: seq<OneTimeKey>, id: u32): (i: nat)
    ensures i <= |keys|
    ensures i < |keys| ==> keys[i].id == id
    ensures forall j :: 0 <= j < i ==> keys[j].id != id
  {
    if keys == [] || keys[0].id == id then 0 else 1 + Position(keys[1..], id)
  }

  function Without(pool: Pool, id: u32): Result<Pool> {
    var i := Position(pool.keys, id);
    if i == |pool.keys| then Err(StateViolation) else Ok(pool.(keys := pool.keys[..i] + pool.keys[i + 1..]))
  }

  /** `consume_classical_one_time` and `consume_pq_one_time`. */
  function Consume(d: Device, kind: SignedKind, id: u32): Outcome<()> {
    match kind
    case Classical =>
      (match Without(d.classical, id)
       case Err(e) => Outcome(Err(e), d)
       case Ok(pool) => Outcome(Ok(()), d.(classical := pool)))
    case Pq =>
      match Without(d.pq, id)
      case Err(e) => Outcome(Err(e), d)
      case Ok(pool) => Outcome(Ok(()), d.(pq := pool))
  }

  // Signed keys

  function Retained(retired: seq<RetiredPair>, day: u32): seq<RetiredPair> {
    if retired == [] then []
    else (if day <= retired[0].retainThrough then [retired[0]] else []) + Retained(retired[1..], day)
  }

  /** `prune_retired`. */
  function Prune(d: Device, day: u32): Device {
    d.(retired := Retained(d.retired, day))
  }

  /** The next id of a signed key, if there is one. */
  function NextSignedId(id: u32): Result<u32> {
    if id + 1 <= KEY_ID_MAX then Ok(id + 1) else Err(StateViolation)
  }

  /** The keys and signatures a rotation makes, before any of them is installed. */
  datatype Replacement = Replacement(version: u32, classical: SignedKey, pq: SignedKey, cross: Bytes64)

  function MakeReplacement(pr: Primitives, s: Supply, d: Device, package: bytes, deviceId: bytes,
                           day: u32): Result<Replacement> {
    var selfSigning :- pr.selfSigning(package, d.identity.userId);
    var classicalId :- NextSignedId(d.currentClassical.id);
    var pqId :- NextSignedId(d.currentPq.id);
    var _ :- Check(d.bundleVersion < U32_MAX, StateViolation);
    var secret :- s.secret(0);
    var public :- pr.x25519(secret);
    var message :- pr.message(Classical, d.identity.userId, classicalId, public);
    var signature :- pr.sign(d.identity.signingSecret, message);
    var (pqPublic, pqSecret) :- s.keypair(0);
    var pqMessage :- pr.message(Pq, d.identity.userId, pqId, pqPublic);
    var pqSignature :- pr.sign(d.identity.signingSecret, pqMessage);
    var crossMessage :- pr.crossMessage(d.identity, deviceId, classicalId, public, pqId, pqPublic, d.bundleVersion + 1);
    var cross :- pr.sign(selfSigning, crossMessage);
    Ok(Replacement(d.bundleVersion + 1,
             SignedKey(classicalId, day, public, signature, secret),
             SignedKey(pqId, day, pqPublic, pqSignature, pqSecret),
             cross))
  }

  function Install(d: Device, replacement: Replacement, day: u32): Device {
    d.(bundleVersion := replacement.version,
       currentClassical := replacement.classical,
       currentPq := replacement.pq,
       crossSignature := replacement.cross,
       retired := d.retired + [RetiredPair(SaturatingAdd(day, RETENTION_DAYS), d.currentClassical, d.currentPq)])
  }

  function RotationProjection(batch: Bytes16, replacement: Replacement): bytes {
    UPLOAD_MAGIC + batch + [UPLOAD_ROTATION]
    + Framing.PutInt(replacement.version, 4,
      Framing.PutInt(replacement.classical.id, 4, replacement.classical.public + replacement.classical.signature
      + Framing.PutInt(replacement.pq.id, 4, replacement.pq.public + replacement.pq.signature + replacement.cross)))
  }

  predicate RotationDue(d: Device, day: u32) {
    && day >= SaturatingAdd(d.currentClassical.createdDay, ROTATION_DAYS)
    && day >= SaturatingAdd(d.currentPq.createdDay, ROTATION_DAYS)
  }

  /** `prepare_rotation`. It prunes before it can still fail, and it installs the new pair before it
      draws the batch id, so a failure there leaves a rotated state with nothing pending. */
  function Rotate(pr: Primitives, s: Supply, d: Device, package: bytes, deviceId: bytes,
                  day: u32): Outcome<(bytes, bytes)> {
    if d.pending.Some? then
      if d.pending.value.kind == UPLOAD_ROTATION
      then Outcome(Ok((d.pending.value.batchId, d.pending.value.projection)), d)
      else Outcome(Err(StateViolation), d)
    else if !RotationDue(d, day) then Outcome(Err(StateViolation), d)
    else
      var d1 := Prune(d, day);
      if |d1.retired| >= MAX_RETIRED then Outcome(Err(ResourceExhausted), d1)
      else
        match MakeReplacement(pr, s, d1, package, deviceId, day)
        case Err(e) => Outcome(Err(e), d1)
        case Ok(replacement) =>
          var d2 := Install(d1, replacement, day);
          match s.batch
          case Err(e) => Outcome(Err(e), d2)
          case Ok(batch) =>
            var projection := RotationProjection(batch, replacement);
            Outcome(Ok((batch, projection)), d2.(pending := Some(Pending(batch, UPLOAD_ROTATION, projection))))
  }

  /** `signed_classical` and `signed_pq`: the current key, else the first retired one with the id. */
  function FindRetired(retired: seq<RetiredPair>, kind: SignedKind, id: u32): Option<SignedKey> {
    if retired == [] then None
    else
      var key := Half(retired[0], kind);
      if key.id == id then Some(key) else FindRetired(retired[1..], kind, id)
  }

  function Half(pair: RetiredPair, kind: SignedKind): SignedKey {
    if kind == Classical then pair.classical else pair.pq
  }

  function Current(d: Device, kind: SignedKind): SignedKey {
    if kind == Classical then d.currentClassical else d.currentPq
  }

  function Lookup(d: Device, kind: SignedKind, id: u32): Option<SignedKey> {
    if Current(d, kind).id == id then Some(Current(d, kind)) else FindRetired(d.retired, kind, id)
  }

  /** The state as the program holds it, field by field, with the operations in place. */
  class DeviceState {
    const identity: Identity
    var bundleVersion: u32
    var nextClassical: u32
    var nextPq: u32
    var currentClassical: SignedKey
    var currentPq: SignedKey
    var crossSignature: Bytes64
    var retired: seq<RetiredPair>
    var classical: seq<OneTimeKey>
    var pq: seq<OneTimeKey>
    var pending: Option<Pending>

    function Value(): Device
      reads this
    {
      Device(identity, bundleVersion, Pool(nextClassical, classical), Pool(nextPq, pq),
             currentClassical, currentPq, crossSignature, retired, pending)
    }

    constructor (d: Device)
      ensures Value() == d
    {
      identity, bundleVersion := d.identity, d.bundleVersion;
      nextClassical, classical := d.classical.next, d.classical.keys;
      nextPq, pq := d.pq.next, d.pq.keys;
      currentClassical, currentPq := d.currentClassical, d.currentPq;
      crossSignature, retired, pending := d.crossSignature, d.retired, d.pending;
    }

    method TakeClassicalId() returns (r: Result<u32>)
      modifies this`nextClassical
      ensures match TakeNextId(old(nextClassical))
        case Err(e) => r == Err(e) && nextClassical == old(nextClassical)
        case Ok((id, next)) => r == Ok(id) && nextClassical == next
    {
      if nextClassical > KEY_ID_MAX {
        return Err(StateViolation);
      }
      var value := nextClassical;
      nextClassical := if value == KEY_ID_MAX then U32_MAX else value + 1;
      return Ok(value);
    }

    method TakePqId() returns (r: Result<u32>)
      modifies this`nextPq
      ensures match TakeNextId(old(nextPq))
        case Err(e) => r == Err(e) && nextPq == old(nextPq)
        case Ok((id, next)) => r == Ok(id) && nextPq == next
    {
      if nextPq > KEY_ID_MAX {
        return Err(StateViolation);
      }
      var value := nextPq;
      nextPq := if value == KEY_ID_MAX then U32_MAX else value + 1;
      return Ok(value);
    }

    method AddClassical(pr: Primitives, s: Supply, n: nat) returns (r: Result<()>, made: seq<OneTimeKey>)
      modifies this`nextClassical, this`classical
      ensures var refilled := RefillFrom(ClassicalDraws(pr, s), old(Pool(nextClassical, classical)), n);
        r == refilled.result && Pool(nextClassical, classical) == refilled.pool && made == refilled.made
    {
      r, made := Ok(()), [];
      ghost var taken: seq<u32> := [];
      var i := 0;
      while i < n
        invariant i <= n && r.Ok?
        invariant Refill(ClassicalDraws(pr, s), Refilled(r, Pool(nextClassical, classical), taken, made), i, n)
               == RefillFrom(ClassicalDraws(pr, s), old(Pool(nextClassical, classical)), n)
      {
        var id := TakeClassicalId();
        if id.Err? {
          r := Err(id.error);
          return;
        }
        taken := taken + [id.value];
        var secret := s.secret(i);
        if secret.Err? {
          r := Err(secret.error);
          return;
        }
        var public := pr.x25519(secret.value);
        if public.Err? {
          r := Err(public.error);
          return;
        }
        var key := OneTimeKey(id.value, public.value, secret.value);
        made, classical := made + [key], classical + [key];
        i := i + 1;
      }
    }

    method AddPq(s: Supply, n: nat) returns (r: Result<()>, made: seq<OneTimeKey>)
      modifies this`nextPq, this`pq
      ensures var refilled := RefillFrom(s.keypair, old(Pool(nextPq, pq)), n);
        r == refilled.result && Pool(nextPq, pq) == refilled.pool && made == refilled.made
    {
      r, made := Ok(()), [];
      ghost var taken: seq<u32> := [];
      var i := 0;
      while i < n
        invariant i <= n && r.Ok?
        invariant Refill(s.keypair, Refilled(r, Pool(nextPq, pq), taken, made), i, n)
               == RefillFrom(s.keypair, old(Pool(nextPq, pq)), n)
      {
        var id := TakePqId();
        if id.Err? {
          r := Err(id.error);
          return;
        }
        taken := taken + [id.value];
        var pair := s.keypair(i);
        if pair.Err? {
          r := Err(pair.error);
          return;
        }
        var key := OneTimeKey(id.value, pair.value.0, pair.value.1);
        made, pq := made + [key], pq + [key];
        i := i + 1;
      }
    }

    method PrepareReplenishment(pr: Primitives, s: Supply, demand: Demand) returns (r: Result<(bytes, bytes)>)
      modifies this
      ensures Outcome(r, Value()) == Replenish(pr, s, old(Value()), demand)
    {
      if pending.Some? {
        return Ok((pending.value.batchId, pending.value.projection));
      }
      if !demand.InRange() {
        return Err(InvalidArgument);
      }
      var addClassical, addPq := demand.AddClassical(), demand.AddPq();
      if |classical| + addClassical > MAX_CLASSICAL || |pq| + addPq > MAX_PQ {
        return Err(ResourceExhausted);
      }
      if s.batch.Err? {
        return Err(s.batch.error);
      }
      var done, madeClassical := AddClassical(pr, s, addClassical);
      if done.Err? {
        return Err(done.error);
      }
      var madePq;
      done, madePq := AddPq(s, addPq);
      if done.Err? {
        return Err(done.error);
      }
      classical, pq := SortById(classical), SortById(pq);
      var projection := ReplenishProjection(s.batch.value, bundleVersion, madeClassical, madePq);
      pending := Some(Pending(s.batch.value, UPLOAD_REPLENISH, projection));
      return Ok((s.batch.value, projection));
    }

    method CommitPendingUpload(batchId: Bytes16) returns (r: Result<()>)
      modifies this`pending
      ensures Outcome(r, Value()) == Commit(old(Value()), batchId)
    {
      if pending.None? {
        return Err(StateViolation);
      }
      if pending.value.batchId != batchId {
        return Err(StateViolation);
      }
      pending := None;
      return Ok(());
    }

    method ConsumeClassical(id: u32) returns (r: Result<()>)
      modifies this`classical
      ensures Outcome(r, Value()) == Consume(old(Value()), Classical, id)
    {
      var i := Position(classical, id);
      if i == |classical| {
        return Err(StateViolation);
      }
      classical := classical[..i] + classical[i + 1..];
      return Ok(());
    }

    method ConsumePq(id: u32) returns (r: Result<()>)
      modifies this`pq
      ensures Outcome(r, Value()) == Consume(old(Value()), Pq, id)
    {
      var i := Position(pq, id);
      if i == |pq| {
        return Err(StateViolation);
      }
      pq := pq[..i] + pq[i + 1..];
      return Ok(());
    }

    method PruneRetired(day: u32)
      modifies this`retired
      ensures Value() == Prune(old(Value()), day)
    {
      var kept := [];
      var i := 0;
      while i < |retired|
        invariant i <= |retired| && retired == old(retired)
        invariant kept + Retained(retired[i..], day) == Retained(retired, day)
      {
        if day <= retired[i].retainThrough {
          kept := kept + [retired[i]];
        }
        i := i + 1;
      }
      retired := kept;
    }

    method PrepareRotation(pr: Primitives, s: Supply, package: bytes, deviceId: bytes, day: u32)
      returns (r: Result<(bytes, bytes)>)
      modifies this
      ensures Outcome(r, Value()) == Rotate(pr, s, old(Value()), package, deviceId, day)
    {
      if pending.Some? {
        if pending.value.kind == UPLOAD_ROTATION {
          return Ok((pending.value.batchId, pending.value.projection));
        }
        return Err(StateViolation);
      }
      if !RotationDue(Value(), day) {
        return Err(StateViolation);
      }
      PruneRetired(day);
      if |retired| >= MAX_RETIRED {
        return Err(ResourceExhausted);
      }
      var made := MakeReplacement(pr, s, Value(), package, deviceId, day);
      if made.Err? {
        return Err(made.error);
      }
      var replacement := made.value;
      retired := retired + [RetiredPair(SaturatingAdd(day, RETENTION_DAYS), currentClassical, currentPq)];
      currentClassical, currentPq := replacement.classical, replacement.pq;
      bundleVersion, crossSignature := replacement.version, replacement.cross;
      if s.batch.Err? {
        return Err(s.batch.error);
      }
      var projection := RotationProjection(s.batch.value, replacement);
      pending := Some(Pending(s.batch.value, UPLOAD_ROTATION, projection));
      return Ok((s.batch.value, projection));
    }
  }
}
