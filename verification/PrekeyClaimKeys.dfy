/** When a one-time key, rather than a row, is handed out once: exactly when no upload repeats a key.
    A retried upload stores a key again once a claim has consumed it (`replenish` of
    devices/services.py ignores conflicts only with rows still there). */
module PrekeyClaimKeys {
  import opened Bytes
  import opened PrekeyClaim

  datatype Stored = Stored(id: nat, key: Prekey)

  function UploadOf(e: Event): seq<Stored> {
    if e.Upload? then [Stored(e.id, e.key)] else []
  }

  function UploadsOf(events: seq<Event>): seq<Stored> {
    if events == [] then [] else UploadOf(events[0]) + UploadsOf(events[1..])
  }

  predicate DistinctIds(uploads: seq<Stored>) {
    forall i, j :: 0 <= i < j < |uploads| ==> uploads[i].id != uploads[j].id
  }

  predicate DistinctKeys(uploads: seq<Stored>) {
    forall i, j :: 0 <= i < j < |uploads| ==> uploads[i].key != uploads[j].key
  }

  /** What a committed claim handed out for a want. */
  predicate HandedOut(w: World, k: nat, want: Want, key: Prekey) {
    Given(w.bundles, w.stored, k, want, key)
  }

  predicate Given(bundles: map<nat, map<Want, nat>>, stored: map<nat, Prekey>, k: nat, want: Want, key: Prekey) {
    k in bundles && want in bundles[k] && bundles[k][want] in stored && stored[bundles[k][want]] == key
  }

  /** No key went to two claims, or to two wants of one. */
  ghost predicate KeysOnce(w: World) {
    forall j, k, a, b, key :: HandedOut(w, j, a, key) && HandedOut(w, k, b, key) ==> j == k && a == b
  }

  // Distinct uploads

  predicate From(w: World, uploads: seq<Stored>) {
    forall id :: id in w.stored ==> Stored(id, w.stored[id]) in uploads
  }

  lemma {:induction false} RunFrom(w: World, events: seq<Event>, done: seq<Stored>)
    requires From(w, done)
    ensures From(Run(w, events), done + UploadsOf(events))
    decreases |events|
  {
    if events == [] {
      assert done + UploadsOf(events) == done;
    } else {
      NextFrom(w, events[0], done);
      RunFrom(Next(w, events[0]), events[1..], done + UploadOf(events[0]));
      assert done + UploadsOf(events) == done + UploadOf(events[0]) + UploadsOf(events[1..]);
    }
  }

  lemma NextFrom(w: World, e: Event, done: seq<Stored>)
    requires From(w, done)
    ensures From(Next(w, e), done + UploadOf(e))
  {
  }

  lemma DistinctUploadsOnce(events: seq<Event>)
    requires DistinctKeys(UploadsOf(events))
    ensures KeysOnce(Run(START, events))
  {
    var w, uploads := Run(START, events), UploadsOf(events);
    RunFrom(START, events, []);
    assert [] + uploads == uploads;
    SingleConsumption(events);
    forall j, k, a, b, key | HandedOut(w, j, a, key) && HandedOut(w, k, b, key)
      ensures j == k && a == b
    {
      SameRow(w, uploads, w.bundles[j][a], w.bundles[k][b]);
      assert w.bundles[j][a] in w.bundles[j].Values && w.bundles[k][b] in w.bundles[k].Values;
      assert Answers(w.stored, w.bundles[j]);
    }
  }

  /** Two rows with one key come from one upload. */
  lemma SameRow(w: World, uploads: seq<Stored>, x: nat, y: nat)
    requires From(w, uploads) && DistinctKeys(uploads) && x in w.stored && y in w.stored && w.stored[x] == w.stored[y]
    ensures x == y
  {
    var i :| 0 <= i < |uploads| && uploads[i] == Stored(x, w.stored[x]);
    var j :| 0 <= j < |uploads| && uploads[j] == Stored(y, w.stored[y]);
  }

  // A repeated upload

  function WantOf(key: Prekey): Want {
    Want(key.kind, key.device)
  }

  /** One upload, and a claim that takes it at once. */
  function StoreAndClaim(u: Stored, k: nat): seq<Event> {
    [Upload(u.id, u.key), Begin(k, [WantOf(u.key)]), Take(k, Some(u.id)), Commit(k)]
  }

  function Drain(uploads: seq<Stored>): seq<Event> {
    if uploads == [] then []
    else Drain(uploads[..|uploads| - 1]) + StoreAndClaim(uploads[|uploads| - 1], |uploads| - 1)
  }

  lemma {:induction false} UploadsAppend(a: seq<Event>, b: seq<Event>)
    ensures UploadsOf(a + b) == UploadsOf(a) + UploadsOf(b)
  {
    if a == [] {
      assert a + b == b;
      assert UploadsOf(a) + UploadsOf(b) == UploadsOf(b);
    } else {
      var rest := a[1..];
      UploadsAppend(rest, b);
      assert (a + b)[0] == a[0] && (a + b)[1..] == rest + b;
      ThreeParts(UploadOf(a[0]), UploadsOf(rest), UploadsOf(b));
    }
  }

  lemma ThreeParts(x: seq<Stored>, y: seq<Stored>, z: seq<Stored>)
    ensures x + (y + z) == x + y + z
  {
  }

  lemma {:induction false} DrainUploads(uploads: seq<Stored>)
    ensures UploadsOf(Drain(uploads)) == uploads
  {
    if uploads != [] {
      var front, last := uploads[..|uploads| - 1], uploads[|uploads| - 1];
      DrainUploads(front);
      UploadsAppend(Drain(front), StoreAndClaim(last, |front|));
      OneUpload(last, |front|);
      assert uploads == front + [last];
    }
  }

  lemma OneUpload(u: Stored, k: nat)
    ensures UploadsOf(StoreAndClaim(u, k)) == [u]
  {
    var events := StoreAndClaim(u, k);
    assert UploadsOf(events[3..]) == [] by {
      assert events[3..][1..] == [];
    }
    assert UploadsOf(events[2..]) == [] by {
      assert events[2..][1..] == events[3..];
    }
    assert UploadsOf(events[1..]) == [] by {
      assert events[1..][1..] == events[2..];
    }
  }

  lemma {:induction false} RunAppend(w: World, a: seq<Event>, b: seq<Event>)
    ensures Run(w, a + b) == Run(Run(w, a), b)
    decreases |a|
  {
    if a == [] {
      assert a + b == b;
    } else {
      RunAppend(Next(w, a[0]), a[1..], b);
      assert (a + b)[1..] == a[1..] + b;
    }
  }

  /** Nothing is stored or open. */
  predicate Empty(w: World) {
    w.rows == map[] && w.locks == map[] && w.claims == map[]
  }

  /** Claim `i` handed out upload `i`, and nothing else was stored or claimed. */
  predicate Drained(bundles: map<nat, map<Want, nat>>, stored: map<nat, Prekey>, uploads: seq<Stored>) {
    && (forall k :: k in bundles ==> k < |uploads|)
    && (forall id :: id in stored ==> Stored(id, stored[id]) in uploads)
    && (forall i :: 0 <= i < |uploads| ==> Given(bundles, stored, i, WantOf(uploads[i].key), uploads[i].key))
  }

  lemma RunFour(w: World, events: seq<Event>)
    requires |events| == 4
    ensures Run(w, events) == Next(Next(Next(Next(w, events[0]), events[1]), events[2]), events[3])
  {
    var w1 := Next(w, events[0]);
    var w2 := Next(w1, events[1]);
    var w3 := Next(w2, events[2]);
    assert Run(w3, events[3..]) == Next(w3, events[3]) by {
      assert events[3..][1..] == [];
    }
    assert Run(w2, events[2..]) == Run(w3, events[3..]) by {
      assert events[2..][1..] == events[3..];
    }
    assert Run(w1, events[1..]) == Run(w2, events[2..]) by {
      assert events[1..][1..] == events[2..];
    }
  }

  /** What one upload and its claim add. */
  lemma OneDrained(w: World, u: Stored, k: nat)
    requires Empty(w) && u.id !in w.stored && k !in w.bundles
    ensures var w' := Run(w, StoreAndClaim(u, k));
      Empty(w') && w'.stored == w.stored[u.id := u.key] && w'.bundles == w.bundles[k := map[WantOf(u.key) := u.id]]
  {
    var want := WantOf(u.key);
    var w1 := Next(w, Upload(u.id, u.key));
    var w2 := Next(w1, Begin(k, [want]));
    assert IsFirst(w2, want, Some(u.id));
    var w3 := Next(w2, Take(k, Some(u.id)));
    assert w3.claims[k].taken == map[want := u.id] && w3.claims[k].consumed == [u.id];
    var w4 := Next(w3, Commit(k));
    assert u.id in RowsIn([u.id]);
    assert w4.rows == map[] && w4.locks == map[] && w4.claims == map[];
    RunFour(w, StoreAndClaim(u, k));
  }

  predicate Settled(w: World, uploads: seq<Stored>) {
    Empty(w) && Drained(w.bundles, w.stored, uploads)
  }

  lemma DrainStep(w: World, front: seq<Stored>, last: Stored)
    requires Settled(w, front) && DistinctIds(front + [last])
    ensures Settled(Run(w, StoreAndClaim(last, |front|)), front + [last])
  {
    NewId(front, last, w.stored);
    OneDrained(w, last, |front|);
    DrainedNext(w.bundles, w.stored, front, last);
  }

  lemma {:induction false} DrainRuns(start: World, uploads: seq<Stored>) returns (w: World)
    requires Empty(start) && start.bundles == map[] && start.stored == map[] && DistinctIds(uploads)
    ensures w == Run(start, Drain(uploads)) && Settled(w, uploads)
  {
    if uploads == [] {
      w := start;
    } else {
      var front, last := uploads[..|uploads| - 1], uploads[|uploads| - 1];
      assert front + [last] == uploads;
      var before := DrainRuns(start, front);
      w := Run(before, StoreAndClaim(last, |front|));
      DrainStep(before, front, last);
      DrainSplits(start, front, last);
    }
  }

  lemma DrainSplits(start: World, front: seq<Stored>, last: Stored)
    ensures Run(start, Drain(front + [last])) == Run(Run(start, Drain(front)), StoreAndClaim(last, |front|))
  {
    assert (front + [last])[..|front|] == front;
    RunAppend(start, Drain(front), StoreAndClaim(last, |front|));
  }

  lemma NewId(front: seq<Stored>, last: Stored, stored: map<nat, Prekey>)
    requires DistinctIds(front + [last]) && forall id :: id in stored ==> Stored(id, stored[id]) in front
    ensures last.id !in stored
  {
    forall i | 0 <= i < |front|
      ensures front[i].id != last.id
    {
      assert (front + [last])[i] == front[i] && (front + [last])[|front|] == last;
    }
  }

  lemma DrainedNext(bundles: map<nat, map<Want, nat>>, stored: map<nat, Prekey>, front: seq<Stored>, last: Stored)
    requires Drained(bundles, stored, front) && last.id !in stored
    ensures Drained(bundles[|front| := map[WantOf(last.key) := last.id]], stored[last.id := last.key], front + [last])
  {
    forall i | 0 <= i < |front|
      ensures Given(bundles[|front| := map[WantOf(last.key) := last.id]], stored[last.id := last.key], i,
                    WantOf(front[i].key), front[i].key)
    {
      assert Given(bundles, stored, i, WantOf(front[i].key), front[i].key);
    }
  }

  lemma RepeatedTwice(uploads: seq<Stored>, i: nat, j: nat)
    requires DistinctIds(uploads) && i < j < |uploads| && uploads[i].key == uploads[j].key
    ensures UploadsOf(Drain(uploads)) == uploads && !KeysOnce(Run(START, Drain(uploads)))
  {
    DrainUploads(uploads);
    var w := DrainRuns(START, uploads);
    assert HandedOut(w, i, WantOf(uploads[i].key), uploads[i].key)
      && HandedOut(w, j, WantOf(uploads[j].key), uploads[j].key);
  }

  /** The interleavings of these uploads with any claims never hand a key out twice. */
  ghost predicate AlwaysOnce(uploads: seq<Stored>) {
    forall events: seq<Event> :: UploadsOf(events) == uploads ==> KeysOnce(Run(START, events))
  }

  /** Whatever claims are interleaved with a sequence of uploads, no key is handed out twice exactly
      when no upload repeats a key. */
  lemma KeysOnceExactly(uploads: seq<Stored>)
    requires DistinctIds(uploads)
    ensures AlwaysOnce(uploads) <==> DistinctKeys(uploads)
  {
    if DistinctKeys(uploads) {
      forall events: seq<Event> | UploadsOf(events) == uploads
        ensures KeysOnce(Run(START, events))
      {
        DistinctUploadsOnce(events);
      }
    } else {
      var i, j :| 0 <= i < j < |uploads| && uploads[i].key == uploads[j].key;
      RepeatedTwice(uploads, i, j);
    }
  }

  // One run

  /** The upload at this place stored a key that a committed claim had consumed by then, and the row it
      stored was claimed in the end. */
  predicate StoredAgain(events: seq<Event>, i: nat)
    requires i < |events|
  {
    && events[i].Upload? && Enabled(Run(START, events[..i]), events[i])
    && (exists x :: x in Run(START, events[..i]).deleted && Keeps(Run(START, events[..i]), x, events[i].key))
    && events[i].id in Run(START, events).deleted
  }

  /** This row was stored for this key. */
  predicate Keeps(w: World, id: nat, key: Prekey) {
    id in w.stored && w.stored[id] == key
  }

  lemma NextRemembers(w: World, e: Event, id: nat, key: Prekey)
    requires Keeps(w, id, key)
    ensures Keeps(Next(w, e), id, key) && w.deleted <= Next(w, e).deleted
  {
  }

  /** What was stored stays on record, and what was deleted stays deleted. */
  lemma {:induction false} RunRemembers(w: World, events: seq<Event>, id: nat, key: Prekey)
    requires Keeps(w, id, key)
    ensures Keeps(Run(w, events), id, key) && w.deleted <= Run(w, events).deleted
    decreases |events|
  {
    if events != [] {
      NextRemembers(w, events[0], id, key);
      RunRemembers(Next(w, events[0]), events[1..], id, key);
    }
  }

  lemma Onward(events: seq<Event>, i: nat, id: nat, key: Prekey)
    requires i <= |events| && Keeps(Run(START, events[..i]), id, key)
    ensures Keeps(Run(START, events), id, key) && Run(START, events[..i]).deleted <= Run(START, events).deleted
  {
    RunAppend(START, events[..i], events[i..]);
    assert events == events[..i] + events[i..];
    RunRemembers(Run(START, events[..i]), events[i..], id, key);
  }

  lemma OneMore(events: seq<Event>, i: nat)
    requires i < |events|
    ensures Run(START, events[..i + 1]) == Next(Run(START, events[..i]), events[i])
  {
    assert events[..i + 1] == events[..i] + [events[i]];
    RunAppend(START, events[..i], [events[i]]);
    assert [events[i]][1..] == [];
  }

  /** Every row on record was stored by one upload. */
  lemma {:induction false} StoredWhen(events: seq<Event>, n: nat, id: nat, key: Prekey) returns (i: nat)
    requires n < |events| && Keeps(Run(START, events[..n + 1]), id, key)
    ensures i <= n && events[i] == Upload(id, key) && Enabled(Run(START, events[..i]), events[i])
  {
    OneMore(events, n);
    i := n;
    if n > 0 && Keeps(Run(START, events[..n]), id, key) {
      i := StoredWhen(events, n - 1, id, key);
    }
  }

  lemma AllOk(events: seq<Event>)
    ensures WorldOk(Run(START, events))
  {
    RunKeeps(START, events);
  }

  /** An upload that stored a key found no row of it: an earlier row had been consumed. */
  lemma EarlierConsumed(w: World, id: nat, key: Prekey, x: nat)
    requires WorldOk(w) && Enabled(w, Upload(id, key)) && Keeps(w, x, key)
    ensures x in w.deleted
  {
    forall id | id in w.rows
      ensures w.rows[id] != key
    {
      assert w.rows[id] in w.rows.Values;
    }
  }

  /** Two rows of one key, one stored before the other. */
  lemma SecondStoredAgain(events: seq<Event>, key: Prekey, x: nat, y: nat, i: nat, j: nat)
    requires i < j < |events| && events[i] == Upload(x, key) && events[j] == Upload(y, key)
    requires Enabled(Run(START, events[..i]), events[i]) && Enabled(Run(START, events[..j]), events[j])
    requires y in Run(START, events).deleted
    ensures StoredAgain(events, j)
  {
    OneMore(events, i);
    assert events[..j][..i + 1] == events[..i + 1];
    Onward(events[..j], i + 1, x, key);
    AllOk(events[..j]);
    EarlierConsumed(Run(START, events[..j]), y, key, x);
  }

  /** In a run, a key is handed out twice if and only if some upload stored a key again after it had been
      consumed, and that row was claimed too. */
  lemma HandedTwiceExactly(events: seq<Event>)
    ensures !KeysOnce(Run(START, events)) <==> exists i :: 0 <= i < |events| && StoredAgain(events, i)
  {
    if !KeysOnce(Run(START, events)) {
      TwiceIsStoredAgain(events);
    }
    if i :| 0 <= i < |events| && StoredAgain(events, i) {
      StoredAgainIsTwice(events, i);
    }
  }

  lemma TwiceIsStoredAgain(events: seq<Event>)
    requires !KeysOnce(Run(START, events))
    ensures exists i :: 0 <= i < |events| && StoredAgain(events, i)
  {
    var w := Run(START, events);
    var j, k, a, b, key :| HandedOut(w, j, a, key) && HandedOut(w, k, b, key) && !(j == k && a == b);
    AllOk(events);
    var x, y := w.bundles[j][a], w.bundles[k][b];
    DifferentRows(w, j, a, k, b);
    assert events != [] && events[..|events| - 1 + 1] == events;
    var m := StoredWhen(events, |events| - 1, x, key);
    var n := StoredWhen(events, |events| - 1, y, key);
    if m < n {
      SecondStoredAgain(events, key, x, y, m, n);
    } else {
      SecondStoredAgain(events, key, y, x, n, m);
    }
  }

  lemma DifferentRows(w: World, j: nat, a: Want, k: nat, b: Want)
    requires WorldOk(w) && j in w.bundles && a in w.bundles[j] && k in w.bundles && b in w.bundles[k]
    requires !(j == k && a == b)
    ensures w.bundles[j][a] != w.bundles[k][b] && w.bundles[j][a] in w.deleted && w.bundles[k][b] in w.deleted
  {
    assert w.bundles[j][a] in w.bundles[j].Values && w.bundles[k][b] in w.bundles[k].Values;
    assert Answers(w.stored, w.bundles[j]);
  }

  lemma StoredAgainIsTwice(events: seq<Event>, i: nat)
    requires i < |events| && StoredAgain(events, i)
    ensures !KeysOnce(Run(START, events))
  {
    var w, key, y := Run(START, events), events[i].key, events[i].id;
    var x :| x in Run(START, events[..i]).deleted && Keeps(Run(START, events[..i]), x, key);
    Onward(events, i, x, key);
    OneMore(events, i);
    Onward(events, i + 1, y, key);
    AllOk(events);
    var j, a := WhoGot(w, x, key);
    var k, b := WhoGot(w, y, key);
  }

  /** A deleted row was handed out. */
  lemma WhoGot(w: World, id: nat, key: Prekey) returns (k: nat, want: Want)
    requires WorldOk(w) && id in w.deleted && Keeps(w, id, key)
    ensures HandedOut(w, k, want, key) && w.bundles[k][want] == id
  {
    k :| k in w.bundles && id in w.bundles[k].Values;
    want :| want in w.bundles[k] && w.bundles[k][want] == id;
  }
}
