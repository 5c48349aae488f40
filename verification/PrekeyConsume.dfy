/** Consuming a one-time key takes that key and nothing else, for good; committing an upload clears
    that upload and nothing else (prekey_state.rs). */
module PrekeyConsume {
  import opened Bytes
  import opened Lists
  import opened PrekeyState
  import opened PrekeyRuns
  import PrekeyReachable

  function PoolOf(d: Device, kind: SignedKind): Pool {
    if kind == Classical then d.classical else d.pq
  }

  predicate Held(pool: Pool, id: u32) {
    exists key :: key in pool.keys && key.id == id
  }

  /** The keys with other ids, in the order they are held. */
  function Others(keys: seq<OneTimeKey>, id: u32): seq<OneTimeKey> {
    if keys == [] then []
    else if keys[0].id == id then Others(keys[1..], id)
    else [keys[0]] + Others(keys[1..], id)
  }

  lemma {:induction false} OthersAre(keys: seq<OneTimeKey>, id: u32)
    ensures forall key :: key in Others(keys, id) <==> key in keys && key.id != id
    ensures (forall key :: key in keys ==> key.id != id) ==> Others(keys, id) == keys
  {
    if keys != [] {
      OthersAre(keys[1..], id);
      assert keys == [keys[0]] + keys[1..];
    }
  }

  /** The state with one pool's key of this id gone. */
  function Spend(d: Device, kind: SignedKind, id: u32): Device {
    if kind == Classical then d.(classical := d.classical.(keys := Others(d.classical.keys, id)))
    else d.(pq := d.pq.(keys := Others(d.pq.keys, id)))
  }

  lemma {:induction false} RemovedIsOthers(keys: seq<OneTimeKey>, id: u32, i: nat)
    requires i < |keys| && keys[i].id == id && forall j :: 0 <= j < |keys| && j != i ==> keys[j].id != id
    ensures keys[..i] + keys[i + 1..] == Others(keys, id)
  {
    var rest := keys[1..];
    if i == 0 {
      OthersAre(rest, id);
      assert keys[..0] + rest == rest;
    } else {
      RemovedIsOthers(rest, id, i - 1);
      RemovedTail(keys, i);
    }
  }

  lemma RemovedTail(keys: seq<OneTimeKey>, i: nat)
    requires 0 < i < |keys|
    ensures keys[..i] + keys[i + 1..] == [keys[0]] + (keys[1..][..i - 1] + keys[1..][i..])
  {
  }

  lemma WithoutExactly(pool: Pool, id: u32)
    requires AscendingKeys(pool.keys)
    ensures Without(pool, id)
      == if Held(pool, id) then Ok(pool.(keys := Others(pool.keys, id))) else Err(StateViolation)
  {
    var i := Position(pool.keys, id);
    if i < |pool.keys| {
      assert pool.keys[i] in pool.keys;
      RemovedIsOthers(pool.keys, id, i);
    }
  }

  /** After any run, consuming an id succeeds exactly when a key with it is held. Then that key is gone,
      every other stands where it stood, and nothing else in the state moved; a refusal moves nothing. */
  lemma ConsumeExactly(pr: Primitives, d: Device, events: seq<Event>, kind: SignedKind, id: u32)
    requires Migrated(d)
    ensures var before := Run(pr, d, events);
      && Consume(before, kind, id)
         == (if Held(PoolOf(before, kind), id) then Outcome(Ok(()), Spend(before, kind, id))
             else Outcome(Err(StateViolation), before))
      && !Held(PoolOf(Spend(before, kind, id), kind), id)
  {
    IdsNeverReissued(pr, d, events);
    var before := Run(pr, d, events);
    WithoutExactly(PoolOf(before, kind), id);
    OthersAre(PoolOf(before, kind).keys, id);
  }

  // For good

  /** An id the mark has passed, with no key. */
  predicate Spent(pool: Pool, id: u32) {
    id < pool.next && !Held(pool, id)
  }

  function OtherThan(id: u32): OneTimeKey -> bool {
    (key: OneTimeKey) => key.id != id
  }

  lemma NotHeldIs(keys: seq<OneTimeKey>, id: u32)
    ensures All(OtherThan(id), keys) <==> forall key :: key in keys ==> key.id != id
  {
    if All(OtherThan(id), keys) {
      forall key | key in keys
        ensures key.id != id
      {
        var i :| 0 <= i < |keys| && keys[i] == key;
        assert OtherThan(id)(keys[i]);
      }
    }
  }

  lemma {:induction false} RefillSpent(draw: nat -> Result<(bytes, bytes)>, r: Refilled, i: nat, n: nat, id: u32)
    requires i <= n && id < r.pool.next && All(OtherThan(id), r.pool.keys)
    ensures id < Refill(draw, r, i, n).pool.next && All(OtherThan(id), Refill(draw, r, i, n).pool.keys)
    decreases n - i
  {
    if i < n && TakeNextId(r.pool.next).Ok? && draw(i).Ok? {
      var (taken, next) := TakeNextId(r.pool.next).value;
      var key := OneTimeKey(taken, draw(i).value.0, draw(i).value.1);
      var more := Refilled(r.result, Pool(next, r.pool.keys + [key]), r.taken + [taken], r.made + [key]);
      RefillSpent(draw, more, i + 1, n, id);
    }
  }

  lemma RefillFromSpent(draw: nat -> Result<(bytes, bytes)>, pool: Pool, n: nat, id: u32)
    requires Spent(pool, id)
    ensures var after := RefillFrom(draw, pool, n).pool;
      Spent(after, id) && Spent(after.(keys := SortById(after.keys)), id)
  {
    NotHeldIs(pool.keys, id);
    RefillSpent(draw, Refilled(Ok(()), pool, [], []), 0, n, id);
    var after := RefillFrom(draw, pool, n).pool;
    PrekeyReachable.SortAll(OtherThan(id), after.keys);
    NotHeldIs(after.keys, id);
    NotHeldIs(SortById(after.keys), id);
  }

  lemma WithoutSpent(pool: Pool, other: u32, id: u32)
    requires Spent(pool, id) && Without(pool, other).Ok?
    ensures Spent(Without(pool, other).value, id)
  {
  }

  lemma SpentNext(pr: Primitives, d: Device, e: Event, kind: SignedKind, id: u32)
    requires Spent(PoolOf(d, kind), id)
    ensures Spent(PoolOf(Next(pr, d, e), kind), id)
  {
    if e.Replenishing? {
      if kind == Classical {
        RefillFromSpent(ClassicalDraws(pr, e.supply), d.classical, e.demand.AddClassical(), id);
      } else {
        RefillFromSpent(e.supply.keypair, d.pq, e.demand.AddPq(), id);
      }
    } else if e.Consuming? && e.kind == kind && Without(PoolOf(d, kind), e.id).Ok? {
      WithoutSpent(PoolOf(d, kind), e.id, id);
    }
  }

  lemma {:induction false} SpentRun(pr: Primitives, d: Device, events: seq<Event>, kind: SignedKind, id: u32)
    requires Spent(PoolOf(d, kind), id)
    ensures Spent(PoolOf(Run(pr, d, events), kind), id)
    decreases |events|
  {
    if events != [] {
      SpentNext(pr, d, events[0], kind, id);
      SpentRun(pr, Next(pr, d, events[0]), events[1..], kind, id);
    }
  }

  /** A consumed key is single use: whatever runs afterwards, no key with its id is ever held again and
      consuming the id again is refused. */
  lemma ConsumedForGood(pr: Primitives, d: Device, events: seq<Event>, kind: SignedKind, id: u32, more: seq<Event>)
    requires Migrated(d) && Consume(Run(pr, d, events), kind, id).result.Ok?
    ensures var later := Run(pr, Consume(Run(pr, d, events), kind, id).device, more);
      !Held(PoolOf(later, kind), id) && Consume(later, kind, id) == Outcome(Err(StateViolation), later)
  {
    var before := Run(pr, d, events);
    ConsumeExactly(pr, d, events, kind, id);
    IdsNeverReissued(pr, d, events);
    BelowMark(PoolOf(before, kind),
              if kind == Classical then Ids(d.classical.keys) + RunClassical(pr, d, events)
              else Ids(d.pq.keys) + RunPq(pr, d, events),
              if kind == Classical then MAX_CLASSICAL else MAX_PQ, id);
    SpentRun(pr, Consume(before, kind, id).device, more, kind, id);
    NoneToTake(Run(pr, Consume(before, kind, id).device, more), kind, id);
  }

  lemma BelowMark(pool: Pool, issued: seq<u32>, cap: nat, id: u32)
    requires PoolOk(pool, issued, cap) && Held(pool, id)
    ensures id < pool.next
  {
    var key :| key in pool.keys && key.id == id;
    var i :| 0 <= i < |pool.keys| && pool.keys[i] == key;
    var j :| 0 <= j < |issued| && issued[j] == id;
  }

  lemma NoneToTake(d: Device, kind: SignedKind, id: u32)
    requires !Held(PoolOf(d, kind), id)
    ensures Consume(d, kind, id) == Outcome(Err(StateViolation), d)
  {
    FoundIsHeld(PoolOf(d, kind), id);
  }

  lemma FoundIsHeld(pool: Pool, id: u32)
    ensures Position(pool.keys, id) < |pool.keys| ==> Held(pool, id)
  {
    if Position(pool.keys, id) < |pool.keys| {
      assert pool.keys[Position(pool.keys, id)] in pool.keys;
    }
  }

  /** Committing succeeds exactly for the upload that is pending, which is then cleared and nothing else;
      any other batch id is refused without effect. */
  lemma CommitExactly(d: Device, batchId: Bytes16)
    ensures var mine := exists upload :: d.pending == Some(upload) && upload.batchId == batchId;
      Commit(d, batchId) == if mine then Outcome(Ok(()), d.(pending := None)) else Outcome(Err(StateViolation), d)
  {
    if d.pending.Some? {
      assert d.pending == Some(d.pending.value);
    }
  }
}
