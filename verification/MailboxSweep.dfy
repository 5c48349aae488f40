/** The retention sweep as the loop it is (`_prune_envelopes` of messaging/management/commands/prune.py),
    with sends, acknowledgements and revocations running between its statements. */
module MailboxSweep {
  import opened MailboxSend
  import opened Mailbox
  import opened MailboxSafety

  const BATCH: nat := 1000

  // The batch query

  function ExpiredKeys(w: World): set<Key> {
    set d, r | d in w.boxes && r in w.boxes[d].rows && r.day < w.cutoff :: Key(d, r.number)
  }

  /** The day a queued envelope was stamped on. */
  function DayOf(w: World, key: Key): int {
    if key.device in w.boxes && 1 <= key.number <= |w.boxes[key.device].days|
    then w.boxes[key.device].days[key.number - 1]
    else 0
  }

  /** What the query may return: the oldest expired envelopes, a full batch unless there are fewer,
      with ties on the day broken in any way. */
  ghost predicate IsBatch(w: World, keys: set<Key>) {
    && keys <= ExpiredKeys(w)
    && (|keys| == BATCH || (|keys| < BATCH && keys == ExpiredKeys(w)))
    && forall a, b :: a in keys && b in ExpiredKeys(w) - keys ==> DayOf(w, a) <= DayOf(w, b)
  }

  lemma {:induction false} EarliestExists(keys: set<Key>, day: Key -> int) returns (first: Key)
    requires keys != {}
    ensures first in keys && forall key :: key in keys ==> day(first) <= day(key)
  {
    first :| first in keys;
    if keys != {first} {
      var rest := EarliestExists(keys - {first}, day);
      assert forall key :: key in keys ==> key == first || key in keys - {first};
      if day(rest) < day(first) {
        first := rest;
      }
    }
  }

  lemma {:induction false} OldestExist(keys: set<Key>, day: Key -> int, n: nat) returns (oldest: set<Key>)
    ensures oldest <= keys && |oldest| == (if n < |keys| then n else |keys|)
    ensures forall a, b :: a in oldest && b in keys - oldest ==> day(a) <= day(b)
    decreases n
  {
    oldest := {};
    if n > 0 && keys != {} {
      var first := EarliestExists(keys, day);
      var rest := OldestExist(keys - {first}, day, n - 1);
      oldest := rest + {first};
    }
  }

  /** The batch query always has an answer. */
  lemma BatchExists(w: World) returns (keys: set<Key>)
    ensures IsBatch(w, keys)
  {
    keys := OldestExist(ExpiredKeys(w), key => DayOf(w, key), BATCH);
    if |ExpiredKeys(w)| <= BATCH {
      SameSize(keys, ExpiredKeys(w));
    }
  }

  lemma SameSize(a: set<Key>, b: set<Key>)
    requires a <= b && |a| == |b|
    ensures a == b
  {
    if a != b {
      var x :| x in b && x !in a;
      assert |b - {x}| == |b| - 1;
      Smaller(a, b - {x});
    }
  }

  lemma {:induction false} Smaller(a: set<Key>, b: set<Key>)
    requires a <= b
    ensures |a| <= |b|
  {
    if x :| x in a {
      Smaller(a - {x}, b - {x});
    }
  }

  // What can still be, or become, an expired envelope

  function Pending(b: Box): seq<Row> {
    if b.hold.Open? then b.hold.rows else []
  }

  /** The expired rows that are queued, or stamped by a send that has yet to commit. */
  function Remaining(w: World): set<Key> {
    set d, r | d in w.boxes && r in w.boxes[d].rows + Pending(w.boxes[d]) && r.day < w.cutoff :: Key(d, r.number)
  }

  predicate IsSweep(e: Event) {
    e.SweepStart? || e.SweepSelect? || e.SweepMeasure? || e.SweepCommit? || e.SweepFail? || e.SweepReturn?
  }

  predicate NoSweep(events: seq<Event>) {
    forall i :: 0 <= i < |events| ==> !IsSweep(events[i])
  }

  /** What the rest of the system leaves alone, and that it adds nothing to what remains. */
  predicate Beside(w: World, w': World) {
    && w'.sweep == w.sweep && w'.cutoff == w.cutoff
    && (forall d :: d in w.boxes ==> d in w'.boxes && w'.boxes[d].mark == w.boxes[d].mark)
    && Remaining(w') <= Remaining(w)
  }

  /** The expired rows of one mailbox, committed or not. */
  predicate Holds(b: Box, r: Row) {
    r in b.rows || r in Pending(b)
  }

  ghost predicate Shrinks(b: Box, b': Box, cutoff: int) {
    b'.mark == b.mark && forall r :: Holds(b', r) && r.day < cutoff ==> Holds(b, r)
  }

  lemma CommitShrinksBox(b: Box, send: nat, cutoff: int)
    ensures Shrinks(b, CommitBox(b, send), cutoff)
  {
  }

  lemma StampShrinks(b: Box, send: nat, size: nat, clock: int, cutoff: int)
    requires cutoff <= clock
    ensures Shrinks(b, StampBox(b, send, size, clock), cutoff)
  {
  }

  lemma AckShrinks(b: Box, numbers: set<nat>, cutoff: int)
    ensures Shrinks(b, AckBox(b, numbers), cutoff)
  {
    WithoutIs(b.rows, numbers);
  }

  lemma BoxShrinks(cfg: Config, w: World, e: Event, d: nat)
    requires w.cutoff <= w.clock && Enabled(w, e) && !IsSweep(e) && d in w.boxes
    ensures d in Next(cfg, w, e).boxes && Shrinks(w.boxes[d], Next(cfg, w, e).boxes[d], w.cutoff)
  {
    var b := w.boxes[d];
    match e
    case StampNext(k) => StampShrinks(b, k, w.sends[k].batch[w.sends[k].phase.next].size, w.clock, w.cutoff);
    case Commit(k) => CommitShrinksBox(b, k, w.cutoff);
    case Ack(_, numbers) => AckShrinks(b, numbers, w.cutoff);
    case _ =>
  }

  lemma NextBeside(cfg: Config, w: World, e: Event)
    requires WorldOk(cfg, w) && !IsSweep(e)
    ensures Beside(w, Next(cfg, w, e))
  {
    if Enabled(w, e) {
      var w' := Next(cfg, w, e);
      forall d | d in w.boxes
        ensures d in w'.boxes && Shrinks(w.boxes[d], w'.boxes[d], w.cutoff)
      {
        BoxShrinks(cfg, w, e, d);
      }
      forall key | key in Remaining(w')
        ensures key in Remaining(w)
      {
        var r :| r in w'.boxes[key.device].rows + Pending(w'.boxes[key.device]) && r.day < w.cutoff
          && key.number == r.number;
        assert key.device in w.boxes;
        assert Holds(w'.boxes[key.device], r);
        assert Holds(w.boxes[key.device], r);
        assert r in w.boxes[key.device].rows + Pending(w.boxes[key.device]);
      }
    }
  }

  lemma {:induction false} RunBeside(cfg: Config, w: World, events: seq<Event>)
    requires WorldOk(cfg, w) && NoSweep(events)
    ensures WorldOk(cfg, Run(cfg, w, events)) && Beside(w, Run(cfg, w, events))
    decreases |events|
  {
    if events != [] {
      NextBeside(cfg, w, events[0]);
      WorldNext(cfg, w, events[0]);
      RunBeside(cfg, Next(cfg, w, events[0]), events[1..]);
    }
  }

  // Where a queued envelope can go

  /** One mailbox later on: its mark is no lower, what it acknowledged and a revocation stay on record,
      and a row that was queued is queued still, was acknowledged, went with a revocation, or is
      among those the sweep deleted. */
  predicate BoxSince(d: nat, b: Box, b': Box, gone: set<Key>) {
    && b.prunedThrough <= b'.prunedThrough && b.acked <= b'.acked && (b.revoked ==> b'.revoked)
    && forall r :: r in b.rows ==> r in b'.rows || r.number in b'.acked || b'.revoked || Key(d, r.number) in gone
  }

  predicate Since(w: World, w': World, gone: set<Key>) {
    forall d :: d in w.boxes ==> d in w'.boxes && BoxSince(d, w.boxes[d], w'.boxes[d], gone)
  }

  lemma SinceOn(a: World, b: World, c: World, s: set<Key>, t: set<Key>)
    requires Since(a, b, s) && Since(b, c, t)
    ensures Since(a, c, s + t)
  {
    forall d | d in a.boxes
      ensures d in c.boxes && BoxSince(d, a.boxes[d], c.boxes[d], s + t)
    {
      BoxSinceOn(d, a.boxes[d], b.boxes[d], c.boxes[d], s, t);
    }
  }

  lemma BoxSinceOn(d: nat, a: Box, b: Box, c: Box, s: set<Key>, t: set<Key>)
    requires BoxSince(d, a, b, s) && BoxSince(d, b, c, t)
    ensures BoxSince(d, a, c, s + t)
  {
  }

  lemma AckSince(d: nat, b: Box, numbers: set<nat>)
    ensures BoxSince(d, b, AckBox(b, numbers), {})
  {
    WithoutIs(b.rows, numbers);
  }

  lemma CommitSince(d: nat, b: Box, send: nat)
    ensures BoxSince(d, b, CommitBox(b, send), {})
  {
  }

  lemma NextBoxSince(cfg: Config, w: World, e: Event, d: nat)
    requires Enabled(w, e) && !IsSweep(e) && d in w.boxes
    ensures d in Next(cfg, w, e).boxes && BoxSince(d, w.boxes[d], Next(cfg, w, e).boxes[d], {})
  {
    match e
    case Ack(_, numbers) => AckSince(d, w.boxes[d], numbers);
    case Commit(k) => CommitSince(d, w.boxes[d], k);
    case _ =>
  }

  lemma {:induction false} RunSince(cfg: Config, w: World, events: seq<Event>)
    requires NoSweep(events)
    ensures Since(w, Run(cfg, w, events), {})
    decreases |events|
  {
    if events != [] {
      var w1 := Next(cfg, w, events[0]);
      if Enabled(w, events[0]) {
        forall d | d in w.boxes
          ensures d in w1.boxes && BoxSince(d, w.boxes[d], w1.boxes[d], {})
        {
          NextBoxSince(cfg, w, events[0], d);
        }
      }
      RunSince(cfg, w1, events[1..]);
      SinceOn(w, w1, Run(cfg, w1, events[1..]), {}, {});
    }
  }

  lemma SweepSince(cfg: Config, w: World)
    requires w.sweep.Measured?
    ensures Since(w, Next(cfg, w, SweepCommit), Deleted(w))
  {
    var w' := Next(cfg, w, SweepCommit);
    forall d | d in w.boxes
      ensures d in w'.boxes && BoxSince(d, w.boxes[d], w'.boxes[d], Deleted(w))
    {
      var b := w.boxes[d];
      if b.mark.Topped? {
        WithoutIs(b.rows, b.mark.numbers);
        forall r | r in b.rows && r.number in b.mark.numbers
          ensures Key(d, r.number) in Deleted(w)
        {
        }
      }
    }
  }

  // One pass of the loop

  predicate Marked(w: World, keys: set<Key>) {
    forall key :: key in keys ==>
      key.device in w.boxes && !w.boxes[key.device].mark.Unmarked? && key.number in w.boxes[key.device].mark.numbers
  }

  predicate Measuring(w: World, keys: set<Key>) {
    Marked(w, keys) && forall key :: key in keys ==> w.boxes[key.device].mark.Topped?
  }

  /** The rows the delete statement finds. */
  function Deleted(w: World): set<Key> {
    set d, r | d in w.boxes && w.boxes[d].mark.Topped? && r in w.boxes[d].rows && r.number in w.boxes[d].mark.numbers ::
      Key(d, r.number)
  }

  lemma SelectMarks(cfg: Config, w: World, keys: set<Key>)
    requires w.sweep.Ready? && keys != {} && keys <= ExpiredKeys(w)
    ensures Enabled(w, SweepSelect(keys))
    ensures var w' := Next(cfg, w, SweepSelect(keys));
      w'.sweep.Selected? && w'.cutoff == w.cutoff && Marked(w', keys) && Remaining(w') <= Remaining(w)
  {
    forall key | key in keys
      ensures Expired(w, key)
    {
      assert key in ExpiredKeys(w);
    }
    SameRows(w, Next(cfg, w, SweepSelect(keys)));
  }

  lemma SameRows(w: World, w': World)
    requires w'.boxes.Keys == w.boxes.Keys && w'.cutoff == w.cutoff
    requires forall d :: d in w.boxes ==> w'.boxes[d].rows == w.boxes[d].rows && w'.boxes[d].hold == w.boxes[d].hold
    ensures Remaining(w') <= Remaining(w)
  {
    forall key | key in Remaining(w')
      ensures key in Remaining(w)
    {
      var r :| r in w'.boxes[key.device].rows + Pending(w'.boxes[key.device]) && r.day < w.cutoff
        && key.number == r.number;
      assert r in w.boxes[key.device].rows + Pending(w.boxes[key.device]);
    }
  }

  lemma MeasureMarks(cfg: Config, w: World, keys: set<Key>)
    requires w.sweep.Selected? && Marked(w, keys)
    ensures var w' := Next(cfg, w, SweepMeasure);
      w'.sweep.Measured? && w'.cutoff == w.cutoff && Measuring(w', keys) && Remaining(w') <= Remaining(w)
  {
    SameRows(w, Next(cfg, w, SweepMeasure));
  }

  /** What the sweep deletes from a mailbox, and that it deletes nothing else. */
  lemma SweepDeletes(cfg: Config, b: Box, clock: int, cutoff: int, r: Row)
    requires BoxOk(cfg, b, clock, cutoff)
    ensures Holds(SweepBox(b), r) ==> Holds(b, r) && (b.mark.Topped? ==> r.number !in b.mark.numbers)
    ensures b.mark.Topped? && r in b.rows && r.number in b.mark.numbers ==>
      r.day < cutoff && r.number <= SweepBox(b).prunedThrough
  {
    if b.mark.Topped? {
      WithoutIs(b.rows, b.mark.numbers);
    }
  }

  lemma CommitShrinks(cfg: Config, w: World, keys: set<Key>)
    requires WorldOk(cfg, w) && w.sweep.Measured? && Measuring(w, keys)
    ensures var w' := Next(cfg, w, SweepCommit);
      && w'.sweep.Ready? && w'.cutoff == w.cutoff
      && Remaining(w') <= Remaining(w) && Remaining(w') !! keys && Remaining(w') !! Deleted(w)
      && Deleted(w) <= Remaining(w)
      && forall key :: key in Deleted(w) ==> key.device in w'.boxes && key.number <= w'.boxes[key.device].prunedThrough
  {
    var w' := Next(cfg, w, SweepCommit);
    forall key | key in Remaining(w')
      ensures key in Remaining(w) && key !in keys && key !in Deleted(w)
    {
      var r :| r in w'.boxes[key.device].rows + Pending(w'.boxes[key.device]) && r.day < w.cutoff
        && key.number == r.number;
      assert Holds(SweepBox(w.boxes[key.device]), r);
      SweepDeletes(cfg, w.boxes[key.device], w.clock, w.cutoff, r);
      assert r in w.boxes[key.device].rows + Pending(w.boxes[key.device]);
    }
    forall key | key in Deleted(w)
      ensures key in Remaining(w) && key.device in w'.boxes && key.number <= w'.boxes[key.device].prunedThrough
    {
      var r :| r in w.boxes[key.device].rows && r.number in w.boxes[key.device].mark.numbers && key.number == r.number;
      SweepDeletes(cfg, w.boxes[key.device], w.clock, w.cutoff, r);
      assert r in w.boxes[key.device].rows + Pending(w.boxes[key.device]);
    }
  }

  /** With nothing expired left, every queued envelope is above its device's watermark: numbers were
      stamped in order of time, so one at or below the mark would be older than an expired one. */
  lemma AboveWatermark(cfg: Config, w: World, d: nat, r: Row)
    requires WorldOk(cfg, w) && ExpiredKeys(w) == {} && d in w.boxes && r in w.boxes[d].rows
    ensures r.day >= w.cutoff && r.number > w.boxes[d].prunedThrough
  {
    var b := w.boxes[d];
    assert BoxOk(cfg, b, w.clock, w.cutoff);
    assert r.day < w.cutoff ==> Key(d, r.number) in ExpiredKeys(w);
  }

  /** At any moment, a queued envelope at or below the mark is itself expired. */
  lemma UnderMarkIsExpired(cfg: Config, b: Box, clock: int, cutoff: int, r: Row)
    requires BoxOk(cfg, b, clock, cutoff) && r in b.rows && r.number <= b.prunedThrough
    ensures r.day < cutoff
  {
    assert b.days[r.number - 1] <= b.days[b.prunedThrough - 1];
  }

  lemma ExpiredRemain(w: World)
    ensures ExpiredKeys(w) <= Remaining(w)
  {
    forall key | key in ExpiredKeys(w)
      ensures key in Remaining(w)
    {
      var r :| r in w.boxes[key.device].rows && r.day < w.cutoff && key.number == r.number;
      assert r in w.boxes[key.device].rows + Pending(w.boxes[key.device]);
    }
  }

  // The command

  predicate Under(keys: set<Key>, w: World) {
    forall key :: key in keys ==> key.device in w.boxes && key.number <= w.boxes[key.device].prunedThrough
  }

  predicate Clean(w: World) {
    forall d, r :: d in w.boxes && r in w.boxes[d].rows ==> r.day >= w.cutoff && r.number > w.boxes[d].prunedThrough
  }

  lemma CleanWhenNone(cfg: Config, w: World)
    requires WorldOk(cfg, w) && ExpiredKeys(w) == {} && w.sweep.Ready?
    ensures Clean(w) && Enabled(w, SweepReturn)
  {
    forall d, r | d in w.boxes && r in w.boxes[d].rows
      ensures r.day >= w.cutoff && r.number > w.boxes[d].prunedThrough
    {
      AboveWatermark(cfg, w, d, r);
    }
  }

  /** Between two passes: everything queued at the start is accounted for, and nothing tallied as
      deleted can be deleted again. */
  ghost predicate Between(cfg: Config, start: World, w: World, swept: set<Key>) {
    && WorldOk(cfg, w) && w.sweep.Ready? && w.cutoff == start.clock - cfg.ttl && Since(start, w, swept)
    && swept !! Remaining(w) && Under(swept, w) && swept + Remaining(w) <= Remaining(Next(cfg, start, SweepStart))
  }

  lemma UnderSince(keys: set<Key>, w: World, w': World, gone: set<Key>)
    requires Under(keys, w) && Since(w, w', gone)
    ensures Under(keys, w')
  {
  }

  /** Tallying what one pass deleted. */
  lemma Tally(swept: set<Key>, gone: set<Key>, before: set<Key>, after: set<Key>, w: World)
    requires swept !! before && gone <= before && gone !! after && after <= before && Under(swept, w) && Under(gone, w)
    ensures |swept + gone| == |swept| + |gone| && swept + gone !! after && Under(swept + gone, w)
    ensures swept + gone + after <= swept + before
  {
  }

  ghost predicate Answers(cfg: Config, select: World -> set<Key>) {
    forall v {:trigger select(v)} :: WorldOk(cfg, v) ==> IsBatch(v, select(v))
  }

  /** The answer to the batch query is empty only when nothing is expired. */
  lemma BatchAnswer(cfg: Config, w: World, select: World -> set<Key>)
    requires WorldOk(cfg, w) && Answers(cfg, select)
    ensures select(w) <= ExpiredKeys(w) && (select(w) == {} ==> ExpiredKeys(w) == {})
  {
    assert IsBatch(w, select(w));
  }

  /** What was expired when the sweep began is gone, and every one of it is accounted for. */
  predicate Accounts(w: World, w': World, swept: set<Key>) {
    forall d, r :: d in w.boxes && r in w.boxes[d].rows && r.day < w'.cutoff ==>
      d in w'.boxes && (r.number in w'.boxes[d].acked || w'.boxes[d].revoked || Key(d, r.number) in swept)
  }

  lemma CleanAccounts(w: World, w': World, swept: set<Key>)
    requires Since(w, w', swept) && Clean(w')
    ensures Accounts(w, w', swept)
  {
    forall d, r | d in w.boxes && r in w.boxes[d].rows && r.day < w'.cutoff
      ensures d in w'.boxes && (r.number in w'.boxes[d].acked || w'.boxes[d].revoked || Key(d, r.number) in swept)
    {
      assert BoxSince(d, w.boxes[d], w'.boxes[d], swept);
    }
  }

  class Store {
    var w: World

    /** `_prune_envelopes`. `others(i)` is what the rest of the system did before the i-th statement,
        and `select` answers the batch query. The loop ends because every pass takes at least one
        envelope out of those that were expired when it began, and nothing stamped later is.

        `swept` names what was deleted: only envelopes that were expired when the sweep began, queued
        or about to be, and all of those queued except what their devices acknowledged or lost to a
        revocation meanwhile. */
    method PruneEnvelopes(cfg: Config, others: nat -> seq<Event>, select: World -> set<Key>)
      returns (pruned: nat, ghost swept: set<Key>)
      requires WorldOk(cfg, w) && w.sweep.Idle?
      requires forall i :: NoSweep(others(i))
      requires Answers(cfg, select)
      modifies this
      ensures WorldOk(cfg, w) && w.sweep.Idle? && w.cutoff == old(w.clock) - cfg.ttl
      ensures Clean(w) && Since(old(w), w, swept)
      ensures pruned == |swept| && Under(swept, w)
      ensures swept <= Remaining(Next(cfg, old(w), SweepStart)) && Accounts(old(w), w, swept)
    {
      ghost var start := w;
      Begin(cfg);
      pruned, swept := 0, {};
      var statement := 0;
      while true
        invariant Between(cfg, start, w, swept) && pruned == |swept|
        decreases Remaining(w)
      {
        var done, deleted;
        ghost var gone;
        done, deleted, gone := Round(cfg, others, select, statement, start, swept);
        if done {
          CleanAccounts(start, w, swept);
          return;
        }
        pruned, swept := pruned + deleted, swept + gone;
        statement := statement + 3;
      }
    }

    /** The body of the loop. */
    method Round(cfg: Config, others: nat -> seq<Event>, select: World -> set<Key>, statement: nat, ghost start: World,
                 ghost swept: set<Key>)
      returns (done: bool, deleted: nat, ghost gone: set<Key>)
      requires Between(cfg, start, w, swept) && (forall i :: NoSweep(others(i))) && Answers(cfg, select)
      modifies this
      ensures done ==>
        WorldOk(cfg, w) && w.sweep.Idle? && w.cutoff == start.clock - cfg.ttl && Clean(w) && Since(start, w, swept)
          && Under(swept, w)
      ensures !done ==>
        Between(cfg, start, w, swept + gone) && |swept + gone| == |swept| + deleted && Remaining(w) < old(Remaining(w))
    {
      Wait(cfg, others(statement), start, swept);
      var ids := Select(cfg, select);
      done := ids == {};
      deleted, gone := 0, {};
      if done {
        Finish(cfg, start, swept);
      } else {
        deleted, gone := Pass(cfg, ids, others(statement + 1), others(statement + 2), start, swept);
      }
    }

    /** What runs before the select. */
    method Wait(cfg: Config, events: seq<Event>, ghost start: World, ghost swept: set<Key>)
      requires Between(cfg, start, w, swept) && NoSweep(events)
      modifies this
      ensures Between(cfg, start, w, swept) && Remaining(w) <= old(Remaining(w))
    {
      MeanwhileMarked(cfg, events, {});
      Onward(start, old(w), w, swept, {});
      assert swept + {} == swept;
    }

    method Begin(cfg: Config)
      requires WorldOk(cfg, w) && w.sweep.Idle?
      modifies this
      ensures Between(cfg, old(w), w, {})
    {
      WorldNext(cfg, w, SweepStart);
      w := Next(cfg, w, SweepStart);
    }

    method Finish(cfg: Config, ghost start: World, ghost swept: set<Key>)
      requires Between(cfg, start, w, swept) && ExpiredKeys(w) == {}
      modifies this
      ensures WorldOk(cfg, w) && w.sweep.Idle? && w.cutoff == start.clock - cfg.ttl && Clean(w)
      ensures Since(start, w, swept) && Under(swept, w)
    {
      CleanWhenNone(cfg, w);
      WorldNext(cfg, w, SweepReturn);
      w := Next(cfg, w, SweepReturn);
    }

    method Select(cfg: Config, select: World -> set<Key>) returns (ids: set<Key>)
      requires WorldOk(cfg, w) && Answers(cfg, select)
      ensures ids <= ExpiredKeys(w) && (ids == {} ==> ExpiredKeys(w) == {})
    {
      BatchAnswer(cfg, w, select);
      ids := select(w);
    }

    /** One transaction of the sweep: select, measure, then watermark and delete. */
    method Pass(cfg: Config, ids: set<Key>, beforeMeasure: seq<Event>, beforeCommit: seq<Event>, ghost start: World,
                ghost swept: set<Key>)
      returns (deleted: nat, ghost gone: set<Key>)
      requires Between(cfg, start, w, swept) && ids != {} && ids <= ExpiredKeys(w)
      requires NoSweep(beforeMeasure) && NoSweep(beforeCommit)
      modifies this
      ensures Between(cfg, start, w, swept + gone) && |swept + gone| == |swept| + deleted
      ensures Remaining(w) < old(Remaining(w))
    {
      ghost var before := w;
      deleted, gone := Transact(cfg, ids, beforeMeasure, beforeCommit);
      Advance(cfg, start, before, w, swept, gone);
    }

    method Transact(cfg: Config, ids: set<Key>, beforeMeasure: seq<Event>, beforeCommit: seq<Event>)
      returns (deleted: nat, ghost gone: set<Key>)
      requires WorldOk(cfg, w) && w.sweep.Ready? && ids != {} && ids <= ExpiredKeys(w)
      requires NoSweep(beforeMeasure) && NoSweep(beforeCommit)
      modifies this
      ensures WorldOk(cfg, w) && w.sweep.Ready? && w.cutoff == old(w.cutoff) && Since(old(w), w, gone)
      ensures Remaining(w) < old(Remaining(w))
      ensures deleted == |gone| && gone <= old(Remaining(w)) && gone !! Remaining(w) && Under(gone, w)
    {
      ExpiredRemain(w);
      SelectIds(cfg, ids);
      ghost var w1 := w;
      MeanwhileMarked(cfg, beforeMeasure, ids);
      ghost var w2 := w;
      Measure(cfg, ids);
      ghost var w3 := w;
      MeanwhileMarked(cfg, beforeCommit, ids);
      ghost var w4 := w;
      deleted, gone := Delete(cfg, ids);
      SinceFive(old(w), w1, w2, w3, w4, w, gone);
      StrictlyFewer(old(Remaining(w)), Remaining(w4), Remaining(w), ids);
    }

    /** The same, with what it leaves of the sweep's selection. */
    method MeanwhileMarked(cfg: Config, events: seq<Event>, ghost ids: set<Key>)
      requires WorldOk(cfg, w) && NoSweep(events)
      modifies this
      ensures WorldOk(cfg, w) && w.sweep == old(w.sweep) && w.cutoff == old(w.cutoff) && Since(old(w), w, {})
      ensures Remaining(w) <= old(Remaining(w))
      ensures (old(Marked(w, ids)) ==> Marked(w, ids)) && (old(Measuring(w, ids)) ==> Measuring(w, ids))
    {
      Meanwhile(cfg, events);
    }

    method SelectIds(cfg: Config, ids: set<Key>)
      requires WorldOk(cfg, w) && w.sweep.Ready? && ids != {} && ids <= ExpiredKeys(w)
      modifies this
      ensures WorldOk(cfg, w) && w.sweep.Selected? && w.cutoff == old(w.cutoff) && Since(old(w), w, {})
      ensures Marked(w, ids) && Remaining(w) <= old(Remaining(w))
    {
      SelectMarks(cfg, w, ids);
      WorldNext(cfg, w, SweepSelect(ids));
      w := Next(cfg, w, SweepSelect(ids));
    }

    /** The aggregate over what is left of the selected rows. */
    method Measure(cfg: Config, ids: set<Key>)
      requires WorldOk(cfg, w) && w.sweep.Selected? && Marked(w, ids)
      modifies this
      ensures WorldOk(cfg, w) && w.sweep.Measured? && w.cutoff == old(w.cutoff) && Since(old(w), w, {})
      ensures Measuring(w, ids) && Remaining(w) <= old(Remaining(w))
    {
      MeasureMarks(cfg, w, ids);
      WorldNext(cfg, w, SweepMeasure);
      w := Next(cfg, w, SweepMeasure);
    }

    /** Watermark and delete, committed together. */
    method Delete(cfg: Config, ids: set<Key>) returns (deleted: nat, ghost gone: set<Key>)
      requires WorldOk(cfg, w) && w.sweep.Measured? && Measuring(w, ids)
      modifies this
      ensures WorldOk(cfg, w) && w.sweep.Ready? && w.cutoff == old(w.cutoff) && Since(old(w), w, gone)
      ensures deleted == |gone| && gone <= old(Remaining(w)) && gone !! Remaining(w) && Under(gone, w)
      ensures Remaining(w) <= old(Remaining(w)) && Remaining(w) !! ids
    {
      CommitShrinks(cfg, w, ids);
      SweepSince(cfg, w);
      WorldNext(cfg, w, SweepCommit);
      gone, deleted := Deleted(w), |Deleted(w)|;
      w := Next(cfg, w, SweepCommit);
    }

    /** What runs between two statements of the sweep. */
    method Meanwhile(cfg: Config, events: seq<Event>)
      requires WorldOk(cfg, w) && NoSweep(events)
      modifies this
      ensures WorldOk(cfg, w) && w == Run(cfg, old(w), events)
      ensures Beside(old(w), w) && Since(old(w), w, {})
    {
      RunBeside(cfg, w, events);
      RunSince(cfg, w, events);
      w := Run(cfg, w, events);
    }
  }

  /** A pass, seen from the start of the sweep. */
  lemma Advance(cfg: Config, start: World, before: World, w: World, swept: set<Key>, gone: set<Key>)
    requires Between(cfg, start, before, swept) && Since(before, w, gone)
    requires WorldOk(cfg, w) && w.sweep.Ready? && w.cutoff == before.cutoff && Under(gone, w)
    requires Remaining(w) <= Remaining(before) && gone <= Remaining(before) && gone !! Remaining(w)
    ensures Between(cfg, start, w, swept + gone) && |swept + gone| == |swept| + |gone|
  {
    Onward(start, before, w, swept, gone);
    Tally(swept, gone, Remaining(before), Remaining(w), w);
  }

  lemma SinceFive(a: World, b: World, c: World, d: World, e: World, f: World, gone: set<Key>)
    requires Since(a, b, {}) && Since(b, c, {}) && Since(c, d, {}) && Since(d, e, {}) && Since(e, f, gone)
    ensures Since(a, f, gone)
  {
    SinceOn(a, b, c, {}, {});
    SinceOn(a, c, d, {} + {}, {});
    SinceOn(a, d, e, {} + {} + {}, {});
    SinceOn(a, e, f, {} + {} + {} + {}, gone);
    assert {} + {} + {} + {} + gone == gone;
  }

  lemma StrictlyFewer(before: set<Key>, middle: set<Key>, after: set<Key>, ids: set<Key>)
    requires after <= middle <= before && after !! ids && ids <= before && ids != {}
    ensures after < before
  {
    var key :| key in ids;
    assert key in before && key !in after;
  }

  lemma Onward(start: World, before: World, w: World, swept: set<Key>, gone: set<Key>)
    requires Since(start, before, swept) && Since(before, w, gone) && Under(swept, before)
    ensures Since(start, w, swept + gone) && Under(swept, w)
  {
    SinceOn(start, before, w, swept, gone);
    UnderSince(swept, before, w, gone);
  }
}
