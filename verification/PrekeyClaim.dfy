/** Claiming one-time prekeys (`_take_one_each` and `claim` of devices/services.py): transactions
    that pick rows with SKIP LOCKED, delete what they picked, and commit or roll back, interleaved
    in any order. */
module PrekeyClaim {
  import opened Bytes

  datatype Kind = Classical | Pq

  /** A stored one-time prekey. */
  datatype Prekey = Prekey(kind: Kind, device: nat, keyId: nat)

  /** What one pass of the loop asks for. */
  datatype Want = Want(kind: Kind, device: nat)

  /** A claim in progress: what it asks for in order, how far it is, the keys it will hand out, and
      the rows it will delete. The loop fills the last two separately. */
  datatype Claim = Claim(wants: seq<Want>, at: nat, taken: map<Want, nat>, consumed: seq<nat>)

  /** Rows by id, their locks, the open claims; and as history, what each committed claim handed out,
      the rows deleted, and every row ever stored. */
  datatype World = World(
    rows: map<nat, Prekey>,
    locks: map<nat, nat>,
    claims: map<nat, Claim>,
    bundles: map<nat, map<Want, nat>>,
    deleted: set<nat>,
    stored: map<nat, Prekey>)

  const START: World := World(map[], map[], map[], map[], {}, map[])

  datatype Event =
    | Upload(id: nat, key: Prekey)
    | Begin(claim: nat, wants: seq<Want>)
    | Take(claim: nat, row: Option<nat>)
    | Commit(claim: nat)
    | Rollback(claim: nat)

  predicate Claimable(w: World, want: Want, id: nat) {
    id in w.rows && id !in w.locks && w.rows[id].kind == want.kind && w.rows[id].device == want.device
  }

  /** The answer to the query: the first unlocked row by key id, if there is one. */
  predicate IsFirst(w: World, want: Want, row: Option<nat>) {
    match row
    case None => forall id :: id in w.rows ==> !Claimable(w, want, id)
    case Some(id) =>
      Claimable(w, want, id)
        && forall other :: other in w.rows && Claimable(w, want, other) ==> w.rows[id].keyId <= w.rows[other].keyId
  }

  lemma {:induction false} LowestExists(ids: set<nat>, keyId: nat -> nat) returns (first: nat)
    requires ids != {}
    ensures first in ids && forall id :: id in ids ==> keyId(first) <= keyId(id)
  {
    first :| first in ids;
    if ids != {first} {
      var rest := LowestExists(ids - {first}, keyId);
      assert forall id :: id in ids ==> id == first || id in ids - {first};
      if keyId(rest) < keyId(first) {
        first := rest;
      }
    }
  }

  function KeyIdOf(w: World, id: nat): nat {
    if id in w.rows then w.rows[id].keyId else 0
  }

  /** The query always has an answer. */
  lemma FirstExists(w: World, want: Want) returns (row: Option<nat>)
    ensures IsFirst(w, want, row)
  {
    var ids := set id | id in w.rows && Claimable(w, want, id);
    assert forall id :: id in w.rows && Claimable(w, want, id) ==> id in ids;
    if ids == {} {
      row := None;
    } else {
      var keyId := (id: nat) => KeyIdOf(w, id);
      var first := LowestExists(ids, keyId);
      row := Some(first);
      forall other | other in w.rows && Claimable(w, want, other)
        ensures w.rows[first].keyId <= w.rows[other].keyId
      {
        assert keyId(first) <= keyId(other);
      }
    }
  }

  /** The devices of a claim come from a query by primary key, so no want repeats. */
  predicate Distinct(wants: seq<Want>) {
    forall i, j :: 0 <= i < j < |wants| ==> wants[i] != wants[j]
  }

  /** An upload of a key that is still stored is ignored; row ids are never reused. */
  predicate Enabled(w: World, e: Event) {
    match e
    case Upload(id, key) => id !in w.stored && key !in w.rows.Values
    case Begin(k, wants) => k !in w.claims && k !in w.bundles && Distinct(wants)
    case Take(k, row) =>
      k in w.claims && w.claims[k].at < |w.claims[k].wants| && IsFirst(w, w.claims[k].wants[w.claims[k].at], row)
    case Commit(k) => k in w.claims && w.claims[k].at == |w.claims[k].wants|
    case Rollback(k) => k in w.claims
  }

  function Taken(c: Claim, row: Option<nat>): Claim
    requires c.at < |c.wants|
  {
    match row
    case None => c.(at := c.at + 1)
    case Some(id) => c.(at := c.at + 1, taken := c.taken[c.wants[c.at] := id], consumed := c.consumed + [id])
  }

  function Unlocked(locks: map<nat, nat>, k: nat): map<nat, nat> {
    map id | id in locks && locks[id] != k :: locks[id]
  }

  function RowsIn(ids: seq<nat>): set<nat> {
    set id | id in ids
  }

  /** The world after an event; an event that is not enabled does nothing. */
  function Next(w: World, e: Event): World {
    if !Enabled(w, e) then w
    else
      match e
      case Upload(id, key) => w.(rows := w.rows[id := key], stored := w.stored[id := key])
      case Begin(k, wants) => w.(claims := w.claims[k := Claim(wants, 0, map[], [])])
      case Take(k, row) =>
        w.(claims := w.claims[k := Taken(w.claims[k], row)],
           locks := if row.Some? then w.locks[row.value := k] else w.locks)
      case Commit(k) =>
        var gone := RowsIn(w.claims[k].consumed);
        w.(rows := w.rows - gone, deleted := w.deleted + gone, locks := Unlocked(w.locks, k),
           bundles := w.bundles[k := w.claims[k].taken], claims := w.claims - {k})
      case Rollback(k) => w.(locks := Unlocked(w.locks, k), claims := w.claims - {k})
  }

  function Run(w: World, events: seq<Event>): World
    decreases |events|
  {
    if events == [] then w else Run(Next(w, events[0]), events[1..])
  }

  // The invariant

  /** Each want is answered by a row of its own kind and device, and no two by the same row. */
  predicate Answers(stored: map<nat, Prekey>, taken: map<Want, nat>) {
    && (forall want :: want in taken ==>
          taken[want] in stored && stored[taken[want]].kind == want.kind && stored[taken[want]].device == want.device)
    && (forall a, b :: a in taken && b in taken && a != b ==> taken[a] != taken[b])
  }

  /** A claim deletes exactly the rows it hands out, and holds their locks. */
  predicate ClaimOk(locks: map<nat, nat>, stored: map<nat, Prekey>, k: nat, c: Claim) {
    && c.at <= |c.wants| && Distinct(c.wants)
    && (forall want :: want in c.taken ==> want in c.wants[..c.at])
    && Answers(stored, c.taken) && c.taken.Values == RowsIn(c.consumed)
    && (forall id :: id in c.consumed ==> id in locks && locks[id] == k)
  }

  predicate ClaimsOk(locks: map<nat, nat>, stored: map<nat, Prekey>, claims: map<nat, Claim>) {
    forall k :: k in claims ==> ClaimOk(locks, stored, k, claims[k])
  }

  predicate LocksOk(rows: map<nat, Prekey>, locks: map<nat, nat>, claims: map<nat, Claim>) {
    forall id :: id in locks ==> id in rows && locks[id] in claims && id in claims[locks[id]].consumed
  }

  predicate BundlesOk(bundles: map<nat, map<Want, nat>>, deleted: set<nat>, stored: map<nat, Prekey>) {
    && (forall k :: k in bundles ==> Answers(stored, bundles[k]) && bundles[k].Values <= deleted)
    && (forall id :: id in deleted ==> exists k :: k in bundles && id in bundles[k].Values)
    && (forall j, k :: j in bundles && k in bundles && j != k ==> bundles[j].Values !! bundles[k].Values)
  }

  predicate StoreOk(rows: map<nat, Prekey>, deleted: set<nat>, stored: map<nat, Prekey>) {
    && deleted !! rows.Keys && deleted + rows.Keys == stored.Keys
    && forall id :: id in rows ==> stored[id] == rows[id]
  }

  predicate WorldOk(w: World) {
    && ClaimsOk(w.locks, w.stored, w.claims) && w.claims.Keys !! w.bundles.Keys
    && LocksOk(w.rows, w.locks, w.claims) && BundlesOk(w.bundles, w.deleted, w.stored)
    && StoreOk(w.rows, w.deleted, w.stored)
  }

  // What each event keeps

  /** Picking a row nobody holds. */
  lemma TakeClaim(locks: map<nat, nat>, stored: map<nat, Prekey>, k: nat, c: Claim, id: nat)
    requires ClaimOk(locks, stored, k, c) && c.at < |c.wants| && id !in locks
    requires id in stored && stored[id].kind == c.wants[c.at].kind && stored[id].device == c.wants[c.at].device
    ensures ClaimOk(locks[id := k], stored, k, Taken(c, Some(id)))
  {
    var want := c.wants[c.at];
    assert c.wants[..c.at + 1] == c.wants[..c.at] + [want];
    assert want !in c.taken;
    TakenValues(c.taken, want, id);
    assert RowsIn(c.consumed + [id]) == RowsIn(c.consumed) + {id};
    AnswersOneMore(stored, c.taken, want, id);
  }

  lemma TakenValues(taken: map<Want, nat>, want: Want, id: nat)
    requires want !in taken
    ensures taken[want := id].Values == taken.Values + {id}
  {
    var taken' := taken[want := id];
    forall x | x in taken.Values
      ensures x in taken'.Values
    {
      var v :| v in taken && taken[v] == x;
      assert taken'[v] == x;
    }
    assert taken'[want] == id;
  }

  lemma AnswersOneMore(stored: map<nat, Prekey>, taken: map<Want, nat>, want: Want, id: nat)
    requires Answers(stored, taken) && id !in taken.Values
    requires id in stored && stored[id].kind == want.kind && stored[id].device == want.device
    ensures Answers(stored, taken[want := id])
  {
    forall v | v in taken
      ensures taken[v] != id
    {
      assert taken[v] in taken.Values;
    }
  }

  lemma TakeKeeps(w: World, k: nat, row: Option<nat>)
    requires WorldOk(w) && Enabled(w, Take(k, row))
    ensures WorldOk(Next(w, Take(k, row)))
  {
    var c := w.claims[k];
    assert ClaimOk(w.locks, w.stored, k, c);
    if row.Some? {
      TakeClaim(w.locks, w.stored, k, c, row.value);
      TakeOthers(w.locks, w.stored, w.claims, k, row.value);
      TakeLocks(w.rows, w.locks, w.claims, k, row.value);
    } else {
      SkipClaims(w.locks, w.stored, w.claims, k);
      SkipLocks(w.rows, w.locks, w.claims, k);
    }
  }

  lemma TakeOthers(locks: map<nat, nat>, stored: map<nat, Prekey>, claims: map<nat, Claim>, k: nat, id: nat)
    requires ClaimsOk(locks, stored, claims) && k in claims && claims[k].at < |claims[k].wants| && id !in locks
    requires ClaimOk(locks[id := k], stored, k, Taken(claims[k], Some(id)))
    ensures ClaimsOk(locks[id := k], stored, claims[k := Taken(claims[k], Some(id))])
  {
    forall j | j in claims && j != k
      ensures ClaimOk(locks[id := k], stored, j, claims[j])
    {
      assert ClaimOk(locks, stored, j, claims[j]);
    }
  }

  lemma TakeLocks(rows: map<nat, Prekey>, locks: map<nat, nat>, claims: map<nat, Claim>, k: nat, id: nat)
    requires LocksOk(rows, locks, claims) && k in claims && claims[k].at < |claims[k].wants| && id in rows
    ensures LocksOk(rows, locks[id := k], claims[k := Taken(claims[k], Some(id))])
  {
  }

  lemma SkipClaims(locks: map<nat, nat>, stored: map<nat, Prekey>, claims: map<nat, Claim>, k: nat)
    requires ClaimsOk(locks, stored, claims) && k in claims && claims[k].at < |claims[k].wants|
    ensures ClaimsOk(locks, stored, claims[k := Taken(claims[k], None)])
  {
    var c := claims[k];
    assert ClaimOk(locks, stored, k, c);
    assert c.wants[..c.at + 1] == c.wants[..c.at] + [c.wants[c.at]];
  }

  lemma SkipLocks(rows: map<nat, Prekey>, locks: map<nat, nat>, claims: map<nat, Claim>, k: nat)
    requires LocksOk(rows, locks, claims) && k in claims && claims[k].at < |claims[k].wants|
    ensures LocksOk(rows, locks, claims[k := Taken(claims[k], None)])
  {
  }

  lemma FinishClaims(locks: map<nat, nat>, stored: map<nat, Prekey>, claims: map<nat, Claim>, k: nat)
    requires ClaimsOk(locks, stored, claims)
    ensures ClaimsOk(Unlocked(locks, k), stored, claims - {k})
  {
    forall j | j in claims && j != k
      ensures ClaimOk(Unlocked(locks, k), stored, j, claims[j])
    {
      assert ClaimOk(locks, stored, j, claims[j]);
    }
  }

  lemma FinishLocks(rows: map<nat, Prekey>, locks: map<nat, nat>, stored: map<nat, Prekey>, claims: map<nat, Claim>,
                    k: nat, gone: set<nat>)
    requires LocksOk(rows, locks, claims) && ClaimsOk(locks, stored, claims) && k in claims
    requires gone <= RowsIn(claims[k].consumed)
    ensures LocksOk(rows - gone, Unlocked(locks, k), claims - {k})
  {
    assert ClaimOk(locks, stored, k, claims[k]);
  }

  /** A new bundle of rows never deleted before joins the old ones. */
  lemma AddBundle(bundles: map<nat, map<Want, nat>>, deleted: set<nat>, stored: map<nat, Prekey>, k: nat,
                  taken: map<Want, nat>)
    requires BundlesOk(bundles, deleted, stored) && k !in bundles && Answers(stored, taken) && taken.Values !! deleted
    ensures BundlesOk(bundles[k := taken], deleted + taken.Values, stored)
  {
    var bundles' := bundles[k := taken];
    forall id | id in deleted + taken.Values
      ensures exists j :: j in bundles' && id in bundles'[j].Values
    {
      if id in deleted {
        var j :| j in bundles && id in bundles[j].Values;
        assert j in bundles' && bundles'[j] == bundles[j];
      } else {
        assert k in bundles' && id in bundles'[k].Values;
      }
    }
    forall i, j | i in bundles' && j in bundles' && i != j
      ensures bundles'[i].Values !! bundles'[j].Values
    {
      assert i != k ==> bundles'[i] == bundles[i] && bundles[i].Values <= deleted;
      assert j != k ==> bundles'[j] == bundles[j] && bundles[j].Values <= deleted;
    }
  }

  lemma CommitKeeps(w: World, k: nat)
    requires WorldOk(w) && Enabled(w, Commit(k))
    ensures WorldOk(Next(w, Commit(k)))
  {
    var c := w.claims[k];
    var gone := RowsIn(c.consumed);
    assert ClaimOk(w.locks, w.stored, k, c);
    assert gone <= w.rows.Keys;
    FinishClaims(w.locks, w.stored, w.claims, k);
    FinishLocks(w.rows, w.locks, w.stored, w.claims, k, gone);
    AddBundle(w.bundles, w.deleted, w.stored, k, c.taken);
  }

  lemma RollbackKeeps(w: World, k: nat)
    requires WorldOk(w) && Enabled(w, Rollback(k))
    ensures WorldOk(Next(w, Rollback(k)))
  {
    FinishClaims(w.locks, w.stored, w.claims, k);
    FinishLocks(w.rows, w.locks, w.stored, w.claims, k, {});
    assert w.rows - {} == w.rows;
  }

  lemma AnswersStill(stored: map<nat, Prekey>, taken: map<Want, nat>, id: nat, key: Prekey)
    requires id !in stored && Answers(stored, taken)
    ensures Answers(stored[id := key], taken)
  {
  }

  lemma UploadKeeps(w: World, id: nat, key: Prekey)
    requires WorldOk(w) && Enabled(w, Upload(id, key))
    ensures WorldOk(Next(w, Upload(id, key)))
  {
    forall k | k in w.claims
      ensures ClaimOk(w.locks, w.stored[id := key], k, w.claims[k])
    {
      assert ClaimOk(w.locks, w.stored, k, w.claims[k]);
      AnswersStill(w.stored, w.claims[k].taken, id, key);
    }
    forall k | k in w.bundles
      ensures Answers(w.stored[id := key], w.bundles[k]) && w.bundles[k].Values <= w.deleted
    {
      AnswersStill(w.stored, w.bundles[k], id, key);
    }
  }

  lemma BeginKeeps(w: World, k: nat, wants: seq<Want>)
    requires WorldOk(w) && Enabled(w, Begin(k, wants))
    ensures WorldOk(Next(w, Begin(k, wants)))
  {
    assert ClaimOk(w.locks, w.stored, k, Claim(wants, 0, map[], []));
  }

  lemma NextKeeps(w: World, e: Event)
    requires WorldOk(w)
    ensures WorldOk(Next(w, e))
  {
    if Enabled(w, e) {
      match e
      case Upload(id, key) => UploadKeeps(w, id, key);
      case Begin(k, wants) => BeginKeeps(w, k, wants);
      case Take(k, row) => TakeKeeps(w, k, row);
      case Commit(k) => CommitKeeps(w, k);
      case Rollback(k) => RollbackKeeps(w, k);
    }
  }

  lemma {:induction false} RunKeeps(w: World, events: seq<Event>)
    requires WorldOk(w)
    ensures WorldOk(Run(w, events))
    decreases |events|
  {
    if events != [] {
      NextKeeps(w, events[0]);
      RunKeeps(Next(w, events[0]), events[1..]);
    }
  }

  // What every run promises

  /** No row is handed out by two committed claims, nor twice by one, and each goes to a want of its
      kind and device; the rows deleted are exactly those handed out, and every other row ever
      stored is still there. */
  lemma SingleConsumption(events: seq<Event>)
    ensures var w := Run(START, events);
      && (forall j, k :: j in w.bundles && k in w.bundles && j != k ==> w.bundles[j].Values !! w.bundles[k].Values)
      && (forall id :: id in w.deleted <==> exists k :: k in w.bundles && id in w.bundles[k].Values)
      && w.rows.Keys == w.stored.Keys - w.deleted
      && (forall k :: k in w.bundles ==> Answers(w.stored, w.bundles[k]))
  {
    RunKeeps(START, events);
    var w := Run(START, events);
    forall id | exists k :: k in w.bundles && id in w.bundles[k].Values
      ensures id in w.deleted
    {
      var k :| k in w.bundles && id in w.bundles[k].Values;
    }
  }

  /** A rolled-back claim changes no row, and every row it had picked can be claimed again. */
  lemma RollbackRestores(events: seq<Event>, k: nat)
    requires k in Run(START, events).claims
    ensures var w := Run(START, events);
      var w' := Next(w, Rollback(k));
      && w'.rows == w.rows && w'.deleted == w.deleted && w'.bundles == w.bundles
      && forall want :: want in w.claims[k].taken ==> Claimable(w', want, w.claims[k].taken[want])
  {
    RunKeeps(START, events);
    var w := Run(START, events);
    var c := w.claims[k];
    assert ClaimOk(w.locks, w.stored, k, c);
    forall want | want in c.taken
      ensures Claimable(Next(w, Rollback(k)), want, c.taken[want])
    {
      assert c.taken[want] in c.taken.Values;
    }
  }

  // The loop

  predicate Apart(e: Event, k: nat) {
    e.Upload? || e.claim != k
  }

  predicate AllApart(events: seq<Event>, k: nat) {
    forall i :: 0 <= i < |events| ==> Apart(events[i], k)
  }

  lemma NextApart(w: World, e: Event, k: nat)
    requires k in w.claims && Apart(e, k)
    ensures k in Next(w, e).claims && Next(w, e).claims[k] == w.claims[k]
  {
  }

  lemma {:induction false} RunApart(w: World, events: seq<Event>, k: nat)
    requires WorldOk(w) && k in w.claims && AllApart(events, k)
    ensures WorldOk(Run(w, events)) && k in Run(w, events).claims && Run(w, events).claims[k] == w.claims[k]
    decreases |events|
  {
    if events != [] {
      NextKeeps(w, events[0]);
      NextApart(w, events[0], k);
      RunApart(Next(w, events[0]), events[1..], k);
    }
  }

  function AnswerTo(taken: map<Want, nat>, want: Want): Option<nat> {
    if want in taken then Some(taken[want]) else None
  }

  /** Each want from `start` on got what the query answers on the tables it was asked of: the lowest
      unlocked key of its kind and device, or nothing when there was none. */
  predicate AllServed(seen: seq<World>, c: Claim, start: nat) {
    start + |seen| <= |c.wants|
    && forall i :: 0 <= i < |seen| ==> IsFirst(seen[i], c.wants[start + i], AnswerTo(c.taken, c.wants[start + i]))
  }

  lemma ServedOneMore(seen: seq<World>, w: World, c: Claim, start: nat, row: Option<nat>)
    requires AllServed(seen, c, start) && start + |seen| == c.at < |c.wants| && Distinct(c.wants)
    requires (forall want :: want in c.taken ==> want in c.wants[..c.at]) && IsFirst(w, c.wants[c.at], row)
    ensures AllServed(seen + [w], Taken(c, row), start)
  {
    var served := Taken(c, row).taken;
    assert c.wants[c.at] !in c.taken;
    forall i | 0 <= i < |seen|
      ensures IsFirst(seen[i], c.wants[start + i], AnswerTo(served, c.wants[start + i]))
    {
      assert c.wants[start + i] != c.wants[c.at];
      assert IsFirst(seen[i], c.wants[start + i], AnswerTo(c.taken, c.wants[start + i]));
    }
  }

  class Store {
    var w: World

    /** `_take_one_each`, one query a pass, with other transactions running before each. `first`
        answers the query; `seen` are the tables each want was asked of. */
    method TakeOneEach(k: nat, others: nat -> seq<Event>, first: (World, Want) -> Option<nat>)
      returns (ghost seen: seq<World>)
      requires WorldOk(w) && k in w.claims
      requires (forall i :: AllApart(others(i), k)) && (forall v, want :: IsFirst(v, want, first(v, want)))
      modifies this
      ensures WorldOk(w) && k in w.claims && w.claims[k].wants == old(w.claims[k].wants)
      ensures w.claims[k].at == |w.claims[k].wants|
      ensures w.claims[k].taken.Values == RowsIn(w.claims[k].consumed) && Answers(w.stored, w.claims[k].taken)
      ensures Enabled(w, Commit(k))
      ensures old(w.claims[k].at) + |seen| == |w.claims[k].wants|
      ensures AllServed(seen, w.claims[k], old(w.claims[k].at))
    {
      ghost var wants, start := w.claims[k].wants, w.claims[k].at;
      assert ClaimOk(w.locks, w.stored, k, w.claims[k]);
      seen := [];
      while w.claims[k].at < |w.claims[k].wants|
        invariant WorldOk(w) && k in w.claims && w.claims[k].wants == wants && w.claims[k].at <= |wants|
        invariant start + |seen| == w.claims[k].at && AllServed(seen, w.claims[k], start)
        decreases |wants| - w.claims[k].at
      {
        RunApart(w, others(w.claims[k].at), k);
        w := Run(w, others(w.claims[k].at));
        var row := first(w, w.claims[k].wants[w.claims[k].at]);
        assert ClaimOk(w.locks, w.stored, k, w.claims[k]);
        ServedOneMore(seen, w, w.claims[k], start, row);
        NextKeeps(w, Take(k, row));
        seen := seen + [w];
        w := Next(w, Take(k, row));
      }
      assert ClaimOk(w.locks, w.stored, k, w.claims[k]);
    }
  }
}
