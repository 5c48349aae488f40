/** One-time prekey ids over every run of the device's operations, failed ones included. */
module PrekeyRuns {
  import opened Bytes
  import opened PrekeyState

  datatype Event =
    | Replenishing(supply: Supply, demand: Demand)
    | Committing(batchId: Bytes16)
    | Consuming(kind: SignedKind, id: u32)
    | Rotating(rotationSupply: Supply, package: bytes, deviceId: bytes, day: u32)
    | Pruning(pruneDay: u32)

  function Next(pr: Primitives, d: Device, e: Event): Device {
    match e
    case Replenishing(s, demand) => Replenish(pr, s, d, demand).device
    case Committing(batchId) => Commit(d, batchId).device
    case Consuming(kind, id) => Consume(d, kind, id).device
    case Rotating(s, package, deviceId, day) => Rotate(pr, s, d, package, deviceId, day).device
    case Pruning(day) => Prune(d, day)
  }

  function Run(pr: Primitives, d: Device, events: seq<Event>): Device
    decreases |events|
  {
    if events == [] then d else Run(pr, Next(pr, d, events[0]), events[1..])
  }

  // The ids an operation takes from the high-water marks, in order

  function TakenClassical(pr: Primitives, d: Device, e: Event): seq<u32> {
    if e.Replenishing? && Refills(e.supply, d, e.demand) then ClassicalRefill(pr, e.supply, d, e.demand).taken else []
  }

  function TakenPq(pr: Primitives, d: Device, e: Event): seq<u32> {
    if e.Replenishing? && Refills(e.supply, d, e.demand) && ClassicalRefill(pr, e.supply, d, e.demand).result.Ok?
    then PqRefill(e.supply, d, e.demand).taken
    else []
  }

  function RunClassical(pr: Primitives, d: Device, events: seq<Event>): seq<u32>
    decreases |events|
  {
    if events == [] then []
    else TakenClassical(pr, d, events[0]) + RunClassical(pr, Next(pr, d, events[0]), events[1..])
  }

  function RunPq(pr: Primitives, d: Device, events: seq<Event>): seq<u32>
    decreases |events|
  {
    if events == [] then [] else TakenPq(pr, d, events[0]) + RunPq(pr, Next(pr, d, events[0]), events[1..])
  }

  // The invariant of a pool

  predicate Ascending(ids: seq<u32>) {
    forall i, j :: 0 <= i < j < |ids| ==> ids[i] < ids[j]
  }

  predicate AscendingKeys(keys: seq<OneTimeKey>) {
    forall i, j :: 0 <= i < j < |keys| ==> keys[i].id < keys[j].id
  }

  predicate HighWater(next: u32) {
    next <= KEY_ID_MAX || next == U32_MAX
  }

  /** Every id ever issued is below the high-water mark, and the keys held are among them. */
  predicate PoolOk(pool: Pool, issued: seq<u32>, cap: nat) {
    && HighWater(pool.next)
    && Ascending(issued)
    && (forall i :: 0 <= i < |issued| ==> issued[i] < pool.next && issued[i] <= KEY_ID_MAX)
    && AscendingKeys(pool.keys)
    && (forall i :: 0 <= i < |pool.keys| ==> pool.keys[i].id in issued)
    && |pool.keys| <= cap
  }

  lemma {:induction false} SortedIsFixed(keys: seq<OneTimeKey>)
    requires AscendingKeys(keys)
    ensures SortById(keys) == keys
  {
    if keys != [] {
      SortedIsFixed(keys[1..]);
      assert keys == [keys[0]] + keys[1..];
      assert |keys| > 1 ==> keys[1..][0] == keys[1];
    }
  }

  lemma TakeKeeps(pool: Pool, issued: seq<u32>, cap: nat)
    requires PoolOk(pool, issued, cap) && TakeNextId(pool.next).Ok?
    ensures var (id, next) := TakeNextId(pool.next).value;
      PoolOk(pool.(next := next), issued + [id], cap) && (forall i :: 0 <= i < |pool.keys| ==> pool.keys[i].id < id)
  {
    forall i | 0 <= i < |pool.keys|
      ensures pool.keys[i].id < pool.next
    {
      var j :| 0 <= j < |issued| && issued[j] == pool.keys[i].id;
    }
  }

  lemma AppendKeeps(pool: Pool, issued: seq<u32>, cap: nat, key: OneTimeKey)
    requires PoolOk(pool, issued, cap) && |pool.keys| < cap && key.id in issued
    requires forall i :: 0 <= i < |pool.keys| ==> pool.keys[i].id < key.id
    ensures PoolOk(pool.(keys := pool.keys + [key]), issued, cap)
  {
  }

  lemma {:induction false} RefillKeeps(draw: nat -> Result<(bytes, bytes)>, r: Refilled, i: nat, n: nat,
                                       before: seq<u32>, cap: nat)
    requires i <= n && PoolOk(r.pool, before + r.taken, cap) && |r.pool.keys| + (n - i) <= cap && |r.made| <= i
    ensures PoolOk(Refill(draw, r, i, n).pool, before + Refill(draw, r, i, n).taken, cap)
    ensures |Refill(draw, r, i, n).made| <= n
    decreases n - i
  {
    if i < n && TakeNextId(r.pool.next).Ok? {
      TakeKeeps(r.pool, before + r.taken, cap);
      var (id, next) := TakeNextId(r.pool.next).value;
      var r1 := r.(pool := r.pool.(next := next), taken := r.taken + [id]);
      assert before + r1.taken == before + r.taken + [id];
      if draw(i).Ok? {
        var key := OneTimeKey(id, draw(i).value.0, draw(i).value.1);
        assert (before + r1.taken)[|before + r.taken|] == id;
        AppendKeeps(r1.pool, before + r1.taken, cap, key);
        RefillKeeps(draw, r1.(pool := r1.pool.(keys := r1.pool.keys + [key]), made := r1.made + [key]), i + 1, n,
                    before, cap);
      }
    }
  }

  lemma RefillFromKeeps(draw: nat -> Result<(bytes, bytes)>, pool: Pool, n: nat, before: seq<u32>, cap: nat)
    requires PoolOk(pool, before, cap) && |pool.keys| + n <= cap
    ensures var r := RefillFrom(draw, pool, n);
      PoolOk(r.pool, before + r.taken, cap) && |r.made| <= n && SortById(r.pool.keys) == r.pool.keys
  {
    assert before + [] == before;
    RefillKeeps(draw, Refilled(Ok(()), pool, [], []), 0, n, before, cap);
    SortedIsFixed(RefillFrom(draw, pool, n).pool.keys);
  }

  lemma RemovedAt(keys: seq<OneTimeKey>, i: nat, j: nat)
    requires i < |keys| && j < |keys| - 1
    ensures (keys[..i] + keys[i + 1..])[j] == if j < i then keys[j] else keys[j + 1]
  {
  }

  lemma RemovedAscends(keys: seq<OneTimeKey>, i: nat)
    requires i < |keys| && AscendingKeys(keys)
    ensures AscendingKeys(keys[..i] + keys[i + 1..])
  {
    var rest := keys[..i] + keys[i + 1..];
    forall j, k | 0 <= j < k < |rest|
      ensures rest[j].id < rest[k].id
    {
      RemovedAt(keys, i, j);
      RemovedAt(keys, i, k);
    }
  }

  lemma WithoutKeeps(pool: Pool, id: u32, issued: seq<u32>, cap: nat)
    requires PoolOk(pool, issued, cap) && Without(pool, id).Ok?
    ensures PoolOk(Without(pool, id).value, issued, cap)
  {
    var i := Position(pool.keys, id);
    RemovedAscends(pool.keys, i);
    var rest := pool.keys[..i] + pool.keys[i + 1..];
    forall j | 0 <= j < |rest|
      ensures rest[j].id in issued
    {
      RemovedAt(pool.keys, i, j);
    }
  }

  // Every operation keeps both pools

  predicate PoolsOk(d: Device, classicalIds: seq<u32>, pqIds: seq<u32>) {
    PoolOk(d.classical, classicalIds, MAX_CLASSICAL) && PoolOk(d.pq, pqIds, MAX_PQ)
  }

  lemma ReplenishKeeps(pr: Primitives, s: Supply, d: Device, demand: Demand, classicalIds: seq<u32>, pqIds: seq<u32>)
    requires PoolsOk(d, classicalIds, pqIds)
    ensures var e := Replenishing(s, demand);
      PoolsOk(Next(pr, d, e), classicalIds + TakenClassical(pr, d, e), pqIds + TakenPq(pr, d, e))
  {
    var e := Replenishing(s, demand);
    assert classicalIds + [] == classicalIds && pqIds + [] == pqIds;
    if Refills(s, d, demand) {
      RefillFromKeeps(ClassicalDraws(pr, s), d.classical, demand.AddClassical(), classicalIds, MAX_CLASSICAL);
      RefillFromKeeps(s.keypair, d.pq, demand.AddPq(), pqIds, MAX_PQ);
    }
  }

  lemma NextKeeps(pr: Primitives, d: Device, e: Event, classicalIds: seq<u32>, pqIds: seq<u32>)
    requires PoolsOk(d, classicalIds, pqIds)
    ensures PoolsOk(Next(pr, d, e), classicalIds + TakenClassical(pr, d, e), pqIds + TakenPq(pr, d, e))
  {
    if e.Replenishing? {
      ReplenishKeeps(pr, e.supply, d, e.demand, classicalIds, pqIds);
    } else {
      assert classicalIds + [] == classicalIds && pqIds + [] == pqIds;
      if e.Consuming? {
        var pool := if e.kind == Classical then d.classical else d.pq;
        if Without(pool, e.id).Ok? {
          WithoutKeeps(pool, e.id, if e.kind == Classical then classicalIds else pqIds,
                       if e.kind == Classical then MAX_CLASSICAL else MAX_PQ);
        }
      }
    }
  }

  function Ids(keys: seq<OneTimeKey>): (ids: seq<u32>)
    ensures |ids| == |keys|
    ensures forall i :: 0 <= i < |keys| ==> ids[i] == keys[i].id
  {
    if keys == [] then [] else [keys[0].id] + Ids(keys[1..])
  }

  /** The one-time part of a state fresh from migration: at least one key of each kind, sorted, and
      marks just past the greatest id (`initial_next_id`). */
  predicate MigratedPool(pool: Pool, most: nat) {
    && 1 <= |pool.keys| <= most && AscendingKeys(pool.keys)
    && (forall i :: 0 <= i < |pool.keys| ==> pool.keys[i].id <= KEY_ID_MAX)
    && var last := pool.keys[|pool.keys| - 1].id;
       pool.next == if last == KEY_ID_MAX then U32_MAX else last + 1
  }

  lemma MigratedPoolOk(pool: Pool, most: nat, cap: nat)
    requires MigratedPool(pool, most) && most <= cap
    ensures PoolOk(pool, Ids(pool.keys), cap)
  {
    var ids := Ids(pool.keys);
    forall i | 0 <= i < |ids|
      ensures ids[i] < pool.next && ids[i] <= KEY_ID_MAX
    {
      assert pool.keys[i].id <= pool.keys[|ids| - 1].id;
    }
    forall i | 0 <= i < |pool.keys|
      ensures pool.keys[i].id in ids
    {
      assert ids[i] == pool.keys[i].id;
    }
  }

  predicate Migrated(d: Device) {
    && MigratedPool(d.classical, 8) && MigratedPool(d.pq, 4)
    && d.retired == [] && d.pending.None? && d.bundleVersion == 1
    && d.currentClassical.createdDay == d.currentPq.createdDay <= U32_MAX - ROTATION_DAYS
    && d.currentClassical.id <= KEY_ID_MAX && d.currentPq.id <= KEY_ID_MAX
  }

  lemma {:induction false} RunKeeps(pr: Primitives, d: Device, events: seq<Event>, classicalIds: seq<u32>,
                                    pqIds: seq<u32>)
    requires PoolsOk(d, classicalIds, pqIds)
    ensures PoolsOk(Run(pr, d, events), classicalIds + RunClassical(pr, d, events), pqIds + RunPq(pr, d, events))
    decreases |events|
  {
    if events == [] {
      assert classicalIds + [] == classicalIds && pqIds + [] == pqIds;
    } else {
      var d1 := Next(pr, d, events[0]);
      NextKeeps(pr, d, events[0], classicalIds, pqIds);
      RunKeeps(pr, d1, events[1..], classicalIds + TakenClassical(pr, d, events[0]), pqIds + TakenPq(pr, d, events[0]));
      Associative(classicalIds, TakenClassical(pr, d, events[0]), RunClassical(pr, d1, events[1..]));
      Associative(pqIds, TakenPq(pr, d, events[0]), RunPq(pr, d1, events[1..]));
    }
  }

  lemma Associative(a: seq<u32>, b: seq<u32>, c: seq<u32>)
    ensures a + b + c == a + (b + c)
  {
  }

  /** From any migrated state, through any operations that succeed or fail: the ids ever issued, the
      migrated ones first, are strictly increasing, so none is issued twice, consumed or not; all are
      below the high-water mark; and the lists stay sorted, within those ids, and within their caps. */
  lemma IdsNeverReissued(pr: Primitives, d: Device, events: seq<Event>)
    requires Migrated(d)
    ensures var after := Run(pr, d, events);
      && PoolOk(after.classical, Ids(d.classical.keys) + RunClassical(pr, d, events), MAX_CLASSICAL)
      && PoolOk(after.pq, Ids(d.pq.keys) + RunPq(pr, d, events), MAX_PQ)
  {
    MigratedPoolOk(d.classical, 8, MAX_CLASSICAL);
    MigratedPoolOk(d.pq, 4, MAX_PQ);
    RunKeeps(pr, d, events, Ids(d.classical.keys), Ids(d.pq.keys));
  }

  /** The closing sort of a replenishment changes nothing, whatever ran before it. */
  lemma SortChangesNothing(pr: Primitives, d: Device, events: seq<Event>, s: Supply, demand: Demand)
    requires Migrated(d) && Refills(s, Run(pr, d, events), demand)
    ensures var after := Run(pr, d, events);
      && SortById(ClassicalRefill(pr, s, after, demand).pool.keys) == ClassicalRefill(pr, s, after, demand).pool.keys
      && SortById(PqRefill(s, after, demand).pool.keys) == PqRefill(s, after, demand).pool.keys
  {
    IdsNeverReissued(pr, d, events);
    var after := Run(pr, d, events);
    RefillFromKeeps(ClassicalDraws(pr, s), after.classical, demand.AddClassical(),
                    Ids(d.classical.keys) + RunClassical(pr, d, events), MAX_CLASSICAL);
    RefillFromKeeps(s.keypair, after.pq, demand.AddPq(), Ids(d.pq.keys) + RunPq(pr, d, events), MAX_PQ);
  }

  /** A refill that succeeds appended exactly what it made, one key a pass. */
  lemma {:induction false} RefillMakes(draw: nat -> Result<(bytes, bytes)>, r: Refilled, i: nat, n: nat)
    returns (more: seq<OneTimeKey>)
    requires i <= n && r.result.Ok?
    ensures var f := Refill(draw, r, i, n);
      f.result.Ok? ==> |more| == n - i && f.made == r.made + more && f.pool.keys == r.pool.keys + more
    decreases n - i
  {
    more := [];
    if i < n && TakeNextId(r.pool.next).Ok? && draw(i).Ok? {
      var (id, next) := TakeNextId(r.pool.next).value;
      var key := OneTimeKey(id, draw(i).value.0, draw(i).value.1);
      var r1 := Refilled(r.result, Pool(next, r.pool.keys + [key]), r.taken + [id], r.made + [key]);
      assert Refill(draw, r, i, n) == Refill(draw, r1, i + 1, n);
      var rest := RefillMakes(draw, r1, i + 1, n);
      more := [key] + rest;
      assert r.made + more == r1.made + rest && r.pool.keys + more == r1.pool.keys + rest;
    }
  }

  lemma RefillFromMakes(draw: nat -> Result<(bytes, bytes)>, pool: Pool, n: nat)
    requires RefillFrom(draw, pool, n).result.Ok?
    ensures |RefillFrom(draw, pool, n).made| == n
    ensures RefillFrom(draw, pool, n).pool.keys == pool.keys + RefillFrom(draw, pool, n).made
  {
    var more := RefillMakes(draw, Refilled(Ok(()), pool, [], []), 0, n);
    assert [] + more == more;
  }

  /** After any run, a replenishment that succeeds adds exactly the number of keys the server lacks,
      behind those already held, and the upload it leaves pending names exactly those keys. */
  lemma UploadIsExact(pr: Primitives, d: Device, events: seq<Event>, s: Supply, demand: Demand)
    requires Migrated(d) && Refills(s, Run(pr, d, events), demand)
    requires Replenish(pr, s, Run(pr, d, events), demand).result.Ok?
    ensures var before := Run(pr, d, events);
      var after := Replenish(pr, s, before, demand);
      var classical, pq := ClassicalRefill(pr, s, before, demand).made, PqRefill(s, before, demand).made;
      && |classical| == demand.AddClassical() && |pq| == demand.AddPq()
      && after.device.classical.keys == before.classical.keys + classical && after.device.pq.keys == before.pq.keys + pq
      && var upload := ReplenishProjection(s.batch.value, before.bundleVersion, classical, pq);
         after.result == Ok((s.batch.value, upload))
           && after.device.pending == Some(Pending(s.batch.value, UPLOAD_REPLENISH, upload))
  {
    var before := Run(pr, d, events);
    SortChangesNothing(pr, d, events, s, demand);
    RefillFromMakes(ClassicalDraws(pr, s), before.classical, demand.AddClassical());
    RefillFromMakes(s.keypair, before.pq, demand.AddPq());
  }

  // Exact retry

  /** No commit of the pending batch among the events. */
  predicate Uncommitted(events: seq<Event>, batchId: Bytes16) {
    forall i :: 0 <= i < |events| ==> events[i] != Committing(batchId)
  }

  lemma {:induction false} PendingStays(pr: Primitives, d: Device, events: seq<Event>)
    requires d.pending.Some? && Uncommitted(events, d.pending.value.batchId)
    ensures Run(pr, d, events).pending == d.pending
    decreases |events|
  {
    if events != [] {
      assert events[0] != Committing(d.pending.value.batchId);
      assert Next(pr, d, events[0]).pending == d.pending;
      PendingStays(pr, Next(pr, d, events[0]), events[1..]);
    }
  }

  /** Once an upload is pending, every replenishment until its own commit returns the same batch and
      bytes, changes nothing, and needs no randomness. A rotation does the same if the pending upload
      is a rotation's, and is refused without effect if it is not. */
  lemma RetryIsExact(pr: Primitives, d: Device, events: seq<Event>, s: Supply, demand: Demand, package: bytes,
                     deviceId: bytes, day: u32)
    requires d.pending.Some? && Uncommitted(events, d.pending.value.batchId)
    ensures var after := Run(pr, d, events);
      var same: Outcome<(bytes, bytes)> := Outcome(Ok((d.pending.value.batchId, d.pending.value.projection)), after);
      && Replenish(pr, s, after, demand) == same
      && Rotate(pr, s, after, package, deviceId, day)
         == if d.pending.value.kind == UPLOAD_ROTATION then same else Outcome(Err(StateViolation), after)
  {
    PendingStays(pr, d, events);
  }
}
