/** A claim that meets no other is one step: every want that has an unlocked key is served its lowest
    one, exactly those rows go, and nothing else changes; rolled back, it never was (`claim` of
    devices/services.py). */
module PrekeyClaimAlone {
  import opened Bytes
  import opened PrekeyClaim

  /** What a claim asks for, with the answer to each query. */
  datatype Asked = Asked(want: Want, row: Option<nat>)

  function Wants(asked: seq<Asked>): seq<Want> {
    seq(|asked|, i requires 0 <= i < |asked| => asked[i].want)
  }

  function Takes(k: nat, asked: seq<Asked>): seq<Event> {
    if asked == [] then [] else [Take(k, asked[0].row)] + Takes(k, asked[1..])
  }

  /** The wants are distinct, and each answer is the lowest unlocked key of its want, if any. */
  predicate Answered(w: World, asked: seq<Asked>) {
    Distinct(Wants(asked)) && forall i :: 0 <= i < |asked| ==> IsFirst(w, asked[i].want, asked[i].row)
  }

  /** The rows answered with, locked for the claim. */
  function LocksWith(locks: map<nat, nat>, k: nat, asked: seq<Asked>): map<nat, nat> {
    if asked == [] then locks
    else
      var last, before := asked[|asked| - 1], LocksWith(locks, k, asked[..|asked| - 1]);
      if last.row.Some? then before[last.row.value := k] else before
  }

  function ClaimWith(wants: seq<Want>, asked: seq<Asked>): Claim {
    if asked == [] then Claim(wants, 0, map[], [])
    else
      var last, before := asked[|asked| - 1], ClaimWith(wants, asked[..|asked| - 1]);
      if last.row.Some?
      then before.(at := |asked|, taken := before.taken[last.want := last.row.value],
                   consumed := before.consumed + [last.row.value])
      else before.(at := |asked|)
  }

  /** The world when the first `n` wants have been asked for. */
  function AfterTakes(w: World, k: nat, asked: seq<Asked>, n: nat): World
    requires n <= |asked|
  {
    w.(claims := w.claims[k := ClaimWith(Wants(asked), asked[..n])], locks := LocksWith(w.locks, k, asked[..n]))
  }

  // What the answers lock and hand out

  lemma {:induction false} LocksWithAre(locks: map<nat, nat>, k: nat, asked: seq<Asked>)
    ensures forall id :: id in LocksWith(locks, k, asked) <==> id in locks || exists i ::
      0 <= i < |asked| && asked[i].row == Some(id)
    ensures forall id :: id in LocksWith(locks, k, asked) ==>
      LocksWith(locks, k, asked)[id] == k || (id in locks && LocksWith(locks, k, asked)[id] == locks[id])
    ensures forall id :: id in locks && (forall i :: 0 <= i < |asked| ==> asked[i].row != Some(id)) ==>
      LocksWith(locks, k, asked)[id] == locks[id]
  {
    if asked != [] {
      var n := |asked| - 1;
      var front := asked[..n];
      LocksWithAre(locks, k, front);
      assert asked == front + [asked[n]];
      forall id | exists i :: 0 <= i < |asked| && asked[i].row == Some(id)
        ensures (exists i :: 0 <= i < |front| && front[i].row == Some(id)) || asked[n].row == Some(id)
      {
        var i :| 0 <= i < |asked| && asked[i].row == Some(id);
        assert i < n ==> front[i].row == Some(id);
      }
      assert forall i :: 0 <= i < n ==> front[i] == asked[i];
    }
  }

  /** The answers are to the first of the wants, no two of which are the same. */
  predicate Asks(wants: seq<Want>, asked: seq<Asked>) {
    |asked| <= |wants| && Distinct(wants) && forall i :: 0 <= i < |asked| ==> wants[i] == asked[i].want
  }

  lemma AsksFewer(wants: seq<Want>, asked: seq<Asked>)
    requires Asks(wants, asked) && asked != []
    ensures var n := |asked| - 1;
      && Asks(wants, asked[..n]) && wants[n] == asked[n].want && wants[n] !in wants[..n]
      && wants[..n + 1] == wants[..n] + [wants[n]]
  {
  }

  lemma {:induction false} ClaimWithIs(wants: seq<Want>, asked: seq<Asked>)
    requires Asks(wants, asked)
    ensures var c := ClaimWith(wants, asked);
      && c.wants == wants && c.at == |asked|
      && forall want :: want in c.taken ==> want in wants[..|asked|]
  {
    if asked != [] {
      AsksFewer(wants, asked);
      ClaimWithIs(wants, asked[..|asked| - 1]);
    }
  }

  /** The bundle holds the row of every want that was answered with one, and nothing else. */
  predicate Serves(bundle: map<Want, nat>, asked: seq<Asked>) {
    && (forall want :: want in bundle ==> want in Wants(asked))
    && forall i :: 0 <= i < |asked| ==> ServesOne(bundle, asked[i])
  }

  predicate ServesOne(bundle: map<Want, nat>, a: Asked) {
    if a.row.Some? then a.want in bundle && bundle[a.want] == a.row.value else a.want !in bundle
  }

  lemma {:induction false} ClaimServes(wants: seq<Want>, asked: seq<Asked>, i: nat)
    requires Asks(wants, asked) && i < |asked|
    ensures ServesOne(ClaimWith(wants, asked).taken, asked[i])
  {
    var n := |asked| - 1;
    AsksFewer(wants, asked);
    if i < n {
      ClaimServes(wants, asked[..n], i);
      assert wants[i] != wants[n];
    } else {
      ClaimWithIs(wants, asked[..n]);
    }
  }

  // Asking

  /** The rows locked so far answer other wants, so the answer to the next stands. */
  lemma AnswerStands(w: World, k: nat, asked: seq<Asked>, n: nat)
    requires Answered(w, asked) && n < |asked|
    ensures IsFirst(AfterTakes(w, k, asked, n), asked[n].want, asked[n].row)
  {
    var v, want := AfterTakes(w, k, asked, n), asked[n].want;
    LocksWithAre(w.locks, k, asked[..n]);
    forall id | id in w.rows
      ensures Claimable(v, want, id) <==> Claimable(w, want, id)
    {
      if exists i :: 0 <= i < |asked[..n]| && asked[..n][i].row == Some(id) {
        var i :| 0 <= i < |asked[..n]| && asked[..n][i].row == Some(id);
        assert IsFirst(w, asked[i].want, asked[i].row);
        assert Wants(asked)[i] != Wants(asked)[n];
      }
    }
    assert IsFirst(w, want, asked[n].row);
  }

  /** One more answer, seen from the claim and its locks. */
  lemma TakenOneMore(locks: map<nat, nat>, k: nat, wants: seq<Want>, asked: seq<Asked>, next: Asked)
    requires |asked| < |wants| && ClaimWith(wants, asked).wants == wants && ClaimWith(wants, asked).at == |asked|
    requires wants[|asked|] == next.want
    ensures ClaimWith(wants, asked + [next]) == Taken(ClaimWith(wants, asked), next.row)
    ensures LocksWith(locks, k, asked + [next])
      == if next.row.Some? then LocksWith(locks, k, asked)[next.row.value := k] else LocksWith(locks, k, asked)
  {
    assert (asked + [next])[..|asked|] == asked;
  }

  lemma TakeStep(w: World, k: nat, asked: seq<Asked>, n: nat)
    requires Answered(w, asked) && n < |asked|
    ensures Next(AfterTakes(w, k, asked, n), Take(k, asked[n].row)) == AfterTakes(w, k, asked, n + 1)
  {
    AnswerStands(w, k, asked, n);
    assert asked[..n + 1] == asked[..n] + [asked[n]];
    ClaimWithIs(Wants(asked), asked[..n]);
    TakenOneMore(w.locks, k, Wants(asked), asked[..n], asked[n]);
  }

  lemma {:induction false} RunTakes(w: World, k: nat, asked: seq<Asked>, n: nat, last: seq<Event>)
    requires Answered(w, asked) && n <= |asked|
    ensures Run(AfterTakes(w, k, asked, n), Takes(k, asked[n..]) + last)
      == Run(AfterTakes(w, k, asked, |asked|), last)
    decreases |asked| - n
  {
    if n < |asked| {
      TakeStep(w, k, asked, n);
      RunTakes(w, k, asked, n + 1, last);
      assert asked[n..][1..] == asked[n + 1..];
      var events := Takes(k, asked[n..]) + last;
      assert events[0] == Take(k, asked[n].row) && events[1..] == Takes(k, asked[n + 1..]) + last;
    } else {
      assert asked[n..] == [] && Takes(k, []) + last == last;
    }
  }

  lemma {:induction false} RunToLast(w: World, k: nat, asked: seq<Asked>, last: Event)
    requires Answered(w, asked) && k !in w.claims && k !in w.bundles
    ensures Run(w, [Begin(k, Wants(asked))] + Takes(k, asked) + [last])
      == Next(AfterTakes(w, k, asked, |asked|), last)
  {
    var begin := Begin(k, Wants(asked));
    assert asked[..0] == [] && asked[0..] == asked;
    assert Next(w, begin) == AfterTakes(w, k, asked, 0);
    RunTakes(w, k, asked, 0, [last]);
    var events := [begin] + Takes(k, asked) + [last];
    assert events[0] == begin && events[1..] == Takes(k, asked) + [last];
    var v := AfterTakes(w, k, asked, |asked|);
    assert Run(v, [last]) == Run(Next(v, last), []);
  }

  // Ending

  lemma Released(w: World, k: nat, asked: seq<Asked>)
    requires WorldOk(w) && k !in w.claims && Answered(w, asked)
    ensures Unlocked(LocksWith(w.locks, k, asked), k) == w.locks
  {
    LocksWithAre(w.locks, k, asked);
    forall id | id in w.locks
      ensures forall i :: 0 <= i < |asked| ==> asked[i].row != Some(id)
    {
      forall i | 0 <= i < |asked|
        ensures asked[i].row != Some(id)
      {
        assert IsFirst(w, asked[i].want, asked[i].row);
      }
    }
  }

  lemma {:induction false} ConsumedIsTaken(wants: seq<Want>, asked: seq<Asked>)
    requires Asks(wants, asked)
    ensures RowsIn(ClaimWith(wants, asked).consumed) == ClaimWith(wants, asked).taken.Values
  {
    if asked != [] {
      var next, front := asked[|asked| - 1], asked[..|asked| - 1];
      AsksFewer(wants, asked);
      ConsumedIsTaken(wants, front);
      ClaimWithIs(wants, front);
      if next.row.Some? {
        var before := ClaimWith(wants, front);
        TakenValues(before.taken, next.want, next.row.value);
        assert RowsIn(before.consumed + [next.row.value]) == RowsIn(before.consumed) + {next.row.value};
      }
    }
  }

  lemma BundleServes(asked: seq<Asked>)
    requires Distinct(Wants(asked))
    ensures var c := ClaimWith(Wants(asked), asked);
      && c.at == |c.wants| == |asked| && Serves(c.taken, asked) && RowsIn(c.consumed) == c.taken.Values
  {
    var wants := Wants(asked);
    ClaimWithIs(wants, asked);
    ConsumedIsTaken(wants, asked);
    assert wants[..|asked|] == wants;
    forall i | 0 <= i < |asked|
      ensures ServesOne(ClaimWith(wants, asked).taken, asked[i])
    {
      ClaimServes(wants, asked, i);
    }
  }

  lemma CommitIs(w: World, v: World, k: nat, c: Claim)
    requires k !in w.claims && v == w.(claims := w.claims[k := c], locks := v.locks)
    requires c.at == |c.wants| && RowsIn(c.consumed) == c.taken.Values && Unlocked(v.locks, k) == w.locks
    ensures Next(v, Commit(k)) == w.(rows := w.rows - c.taken.Values, deleted := w.deleted + c.taken.Values,
                                     bundles := w.bundles[k := c.taken])
  {
    assert v.claims - {k} == w.claims;
  }

  lemma RollbackIs(w: World, v: World, k: nat, c: Claim)
    requires k !in w.claims && v == w.(claims := w.claims[k := c], locks := v.locks)
    requires Unlocked(v.locks, k) == w.locks
    ensures Next(v, Rollback(k)) == w
  {
    assert v.claims - {k} == w.claims;
  }

  /** Run with no other transaction among its statements, a claim serves each want that has an unlocked
      key its lowest one and leaves out every other; the rows served are deleted, and every other row,
      lock and claim is as it was. */
  lemma ClaimAlone(w: World, k: nat, asked: seq<Asked>)
    requires WorldOk(w) && k !in w.claims && k !in w.bundles && Answered(w, asked)
    ensures var w' := Run(w, [Begin(k, Wants(asked))] + Takes(k, asked) + [Commit(k)]);
      && k in w'.bundles && Serves(w'.bundles[k], asked)
      && w' == w.(rows := w.rows - w'.bundles[k].Values, deleted := w.deleted + w'.bundles[k].Values,
                  bundles := w.bundles[k := w'.bundles[k]])
  {
    RunToLast(w, k, asked, Commit(k));
    assert asked[..|asked|] == asked;
    BundleServes(asked);
    Released(w, k, asked);
    CommitIs(w, AfterTakes(w, k, asked, |asked|), k, ClaimWith(Wants(asked), asked));
  }

  /** Rolled back instead, it leaves the tables exactly as it found them. */
  lemma RollbackAlone(w: World, k: nat, asked: seq<Asked>)
    requires WorldOk(w) && k !in w.claims && k !in w.bundles && Answered(w, asked)
    ensures Run(w, [Begin(k, Wants(asked))] + Takes(k, asked) + [Rollback(k)]) == w
  {
    RunToLast(w, k, asked, Rollback(k));
    assert asked[..|asked|] == asked;
    Released(w, k, asked);
    RollbackIs(w, AfterTakes(w, k, asked, |asked|), k, ClaimWith(Wants(asked), asked));
  }
}
