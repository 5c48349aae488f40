/** The same question for a pass with other traffic between its statements: what is acknowledged, sent,
    revoked or registered while a pass is open can undo a parted day and never makes one. */
module MailboxSplitAmong {
  import opened MailboxSend
  import opened Mailbox
  import opened MailboxSafety
  import opened MailboxSweep
  import opened MailboxSplit

  function AtMeasure(cfg: Config, w: World, keys: set<Key>, before: seq<Event>): World {
    Run(cfg, Next(cfg, w, SweepSelect(keys)), before)
  }

  function AtCommit(cfg: Config, w: World, keys: set<Key>, before: seq<Event>, after: seq<Event>): World {
    Run(cfg, Next(cfg, AtMeasure(cfg, w, keys, before), SweepMeasure), after)
  }

  /** One pass with these events before its measure and before its commit. */
  function PassAmong(cfg: Config, w: World, keys: set<Key>, before: seq<Event>, after: seq<Event>): World {
    Next(cfg, AtCommit(cfg, w, keys, before, after), SweepCommit)
  }

  // What a mailbox keeps while a pass is open

  /** Rows only go, save new ones with new numbers; mark and watermark stay. */
  predicate Later(b: Box, b': Box) {
    && b'.mark == b.mark && b'.prunedThrough == b.prunedThrough && b.queueSeq <= b'.queueSeq
    && forall r :: r in b'.rows ==> r in b.rows || r.number > b.queueSeq
  }

  /** A mailbox registered since. */
  predicate Newer(b: Box) {
    b.mark.Unmarked? && b.prunedThrough == 0
  }

  predicate AllLater(w: World, w': World) {
    && w'.sweep == w.sweep
    && (forall d :: d in w.boxes ==> d in w'.boxes && Later(w.boxes[d], w'.boxes[d]))
    && (forall d :: d in w'.boxes && d !in w.boxes ==> Newer(w'.boxes[d]))
  }

  lemma CommitLater(b: Box, clock: int, send: nat)
    requires HoldOk(b, clock)
    ensures Later(b, CommitBox(b, send))
  {
    if b.hold.Open? && b.hold.holder == send {
      forall r | r in b.hold.rows
        ensures r.number > b.queueSeq
      {
        var i :| 0 <= i < |b.hold.rows| && b.hold.rows[i] == r;
      }
    }
  }

  lemma AckLater(b: Box, numbers: set<nat>)
    ensures Later(b, AckBox(b, numbers))
  {
    WithoutIs(b.rows, numbers);
  }

  lemma BoxLater(cfg: Config, w: World, e: Event, d: nat)
    requires WorldOk(cfg, w) && Enabled(w, e) && !IsSweep(e) && d in w.boxes
    ensures d in Next(cfg, w, e).boxes && Later(w.boxes[d], Next(cfg, w, e).boxes[d])
  {
    if e.Commit? {
      assert BoxOk(cfg, w.boxes[d], w.clock, w.cutoff);
      CommitLater(w.boxes[d], w.clock, e.send);
    } else if e.Ack? {
      AckLater(w.boxes[d], e.numbers);
    } else {
      PlainLater(cfg, w, e, d);
    }
  }

  lemma PlainLater(cfg: Config, w: World, e: Event, d: nat)
    requires Enabled(w, e) && !IsSweep(e) && !e.Commit? && !e.Ack? && d in w.boxes
    ensures d in Next(cfg, w, e).boxes && Later(w.boxes[d], Next(cfg, w, e).boxes[d])
  {
  }

  lemma NextLater(cfg: Config, w: World, e: Event)
    requires WorldOk(cfg, w) && !IsSweep(e)
    ensures AllLater(w, Next(cfg, w, e))
  {
    if Enabled(w, e) {
      forall d | d in w.boxes
        ensures d in Next(cfg, w, e).boxes && Later(w.boxes[d], Next(cfg, w, e).boxes[d])
      {
        BoxLater(cfg, w, e, d);
      }
    }
  }

  lemma LaterOn(a: World, b: World, c: World)
    requires AllLater(a, b) && AllLater(b, c)
    ensures AllLater(a, c)
  {
    forall d | d in a.boxes
      ensures d in c.boxes && Later(a.boxes[d], c.boxes[d])
    {
      assert Later(a.boxes[d], b.boxes[d]) && Later(b.boxes[d], c.boxes[d]);
    }
  }

  lemma {:induction false} RunLater(cfg: Config, w: World, events: seq<Event>)
    requires WorldOk(cfg, w) && NoSweep(events)
    ensures WorldOk(cfg, Run(cfg, w, events)) && AllLater(w, Run(cfg, w, events))
    decreases |events|
  {
    if events != [] {
      NextLater(cfg, w, events[0]);
      WorldNext(cfg, w, events[0]);
      RunLater(cfg, Next(cfg, w, events[0]), events[1..]);
      LaterOn(w, Next(cfg, w, events[0]), Run(cfg, w, events));
    }
  }

  // One mailbox

  /** What a device's box is at the select, the measure and the commit of a pass. */
  predicate Through(b: Box, measured: Box, committed: Box, numbers: set<nat>) {
    && Later(b.(mark := Picked(numbers)), measured)
    && Later(measured.(mark := Topped(numbers, Top(measured.rows, numbers))), committed)
  }

  /** A row queued at the commit and not selected, and a later one selected and still queued at the
      measure. */
  predicate Straddles(measured: Box, committed: Box, numbers: set<nat>, lo: Row, hi: Row) {
    && lo in committed.rows && hi in measured.rows
    && lo.number !in numbers && hi.number in numbers && lo.number < hi.number
  }

  /** Two such rows of one day. */
  ghost predicate PartsAmong(measured: Box, committed: Box, numbers: set<nat>) {
    exists lo, hi :: Straddles(measured, committed, numbers, lo, hi) && lo.day == hi.day
  }

  predicate BoxAbove(b: Box) {
    forall r :: r in b.rows ==> r.number > b.prunedThrough
  }

  lemma SweptAboveExactly(measured: Box, committed: Box, numbers: set<nat>)
    requires committed.mark == Topped(numbers, Top(measured.rows, numbers))
    ensures BoxAbove(SweepBox(committed)) <==>
      forall r :: r in committed.rows && r.number !in numbers ==>
        r.number > committed.prunedThrough && AboveTaken(measured, numbers, r)
  {
    WithoutIs(committed.rows, numbers);
    TopIs(measured.rows, numbers);
    var b' := SweepBox(committed);
    if BoxAbove(b') {
      forall r | r in committed.rows && r.number !in numbers
        ensures r.number > committed.prunedThrough && AboveTaken(measured, numbers, r)
      {
        assert r in b'.rows;
      }
    }
  }

  /** What was queued at a number the mailbox already had was queued before. */
  lemma WasQueued(b: Box, measured: Box, committed: Box, numbers: set<nat>, r: Row)
    requires Through(b, measured, committed, numbers) && r.number <= b.queueSeq
    ensures r in committed.rows ==> r in b.rows
    ensures r in measured.rows ==> r in b.rows
  {
  }

  /** The selected numbers are among those a mailbox had. */
  lemma BoxAboveAmong(cfg: Config, w: World, keys: set<Key>, d: nat, measured: Box, committed: Box)
    requires WorldOk(cfg, w) && IsBatch(w, keys) && d in w.boxes
    requires Through(w.boxes[d], measured, committed, NumbersFor(keys, d))
    ensures BoxAbove(SweepBox(committed)) <==>
      && (forall r :: r in committed.rows && r.number !in NumbersFor(keys, d) ==> r.number > committed.prunedThrough)
      && !PartsAmong(measured, committed, NumbersFor(keys, d))
  {
    var numbers := NumbersFor(keys, d);
    SweptAboveExactly(measured, committed, numbers);
    forall lo, hi | Straddles(measured, committed, numbers, lo, hi)
      ensures lo.day == hi.day
    {
      PartedWhileOpen(cfg, w, keys, d, measured, committed, lo, hi);
    }
    UnpartedIs(measured, committed, numbers);
  }

  lemma UnpartedIs(measured: Box, committed: Box, numbers: set<nat>)
    requires forall lo, hi :: Straddles(measured, committed, numbers, lo, hi) ==> lo.day == hi.day
    ensures !PartsAmong(measured, committed, numbers) <==>
      forall r :: r in committed.rows && r.number !in numbers ==> AboveTaken(measured, numbers, r)
  {
    if !PartsAmong(measured, committed, numbers) {
      forall r, hi | r in committed.rows && r.number !in numbers && hi in measured.rows && hi.number in numbers
        ensures r.number > hi.number
      {
        assert !Straddles(measured, committed, numbers, r, hi);
      }
    }
  }

  lemma PartedWhileOpen(cfg: Config, w: World, keys: set<Key>, d: nat, measured: Box, committed: Box, lo: Row, hi: Row)
    requires WorldOk(cfg, w) && IsBatch(w, keys) && d in w.boxes
    requires Through(w.boxes[d], measured, committed, NumbersFor(keys, d))
    requires Straddles(measured, committed, NumbersFor(keys, d), lo, hi)
    ensures lo in w.boxes[d].rows && hi in w.boxes[d].rows && lo.day == hi.day
  {
    InNumbers(keys, d, lo.number);
    InNumbers(keys, d, hi.number);
    assert BoxOk(cfg, w.boxes[d], w.clock, w.cutoff);
    assert hi.number <= w.boxes[d].queueSeq by {
      assert Key(d, hi.number) in ExpiredKeys(w);
    }
    WasQueued(w.boxes[d], measured, committed, NumbersFor(keys, d), lo);
    WasQueued(w.boxes[d], measured, committed, NumbersFor(keys, d), hi);
    PartedSameDay(cfg, w, keys, d, lo, hi);
  }

  // The whole pass

  ghost predicate SplitsAmong(measured: World, committed: World, keys: set<Key>) {
    exists d :: d in measured.boxes && d in committed.boxes
                && PartsAmong(measured.boxes[d], committed.boxes[d], NumbersFor(keys, d))
  }

  /** The three moments of a pass. */
  predicate AllThrough(w: World, keys: set<Key>, measured: World, committed: World) {
    && (forall d :: d in w.boxes ==>
          && d in measured.boxes && d in committed.boxes
          && Through(w.boxes[d], measured.boxes[d], committed.boxes[d], NumbersFor(keys, d)))
    && (forall d :: d in committed.boxes && d !in w.boxes ==> Newer(committed.boxes[d]))
  }

  lemma SelectIs(cfg: Config, w: World, keys: set<Key>)
    requires WorldOk(cfg, w) && w.sweep.Ready? && keys != {} && keys <= ExpiredKeys(w)
    ensures var selected := Next(cfg, w, SweepSelect(keys));
      && WorldOk(cfg, selected) && selected.sweep.Selected?
      && selected.boxes == map d | d in w.boxes :: w.boxes[d].(mark := Picked(NumbersFor(keys, d)))
  {
    SelectMarks(cfg, w, keys);
    WorldNext(cfg, w, SweepSelect(keys));
  }

  lemma OpenPass(cfg: Config, w: World, keys: set<Key>, before: seq<Event>, after: seq<Event>)
    requires WorldOk(cfg, w) && w.sweep.Ready? && keys != {} && keys <= ExpiredKeys(w)
    requires NoSweep(before) && NoSweep(after)
    ensures WorldOk(cfg, AtCommit(cfg, w, keys, before, after)) && AtCommit(cfg, w, keys, before, after).sweep.Measured?
    ensures AllThrough(w, keys, AtMeasure(cfg, w, keys, before), AtCommit(cfg, w, keys, before, after))
  {
    var selected, measured := Next(cfg, w, SweepSelect(keys)), AtMeasure(cfg, w, keys, before);
    SelectIs(cfg, w, keys);
    RunLater(cfg, selected, before);
    MeasureToCommit(cfg, measured, after);
    ThroughAll(w, selected, measured, Next(cfg, measured, SweepMeasure), AtCommit(cfg, w, keys, before, after), keys);
  }

  lemma MeasureToCommit(cfg: Config, measured: World, after: seq<Event>)
    requires WorldOk(cfg, measured) && measured.sweep.Selected? && NoSweep(after)
    ensures var topped := Next(cfg, measured, SweepMeasure);
      && topped.boxes == (map d | d in measured.boxes :: MeasureBox(measured.boxes[d]))
      && AllLater(topped, Run(cfg, topped, after))
      && WorldOk(cfg, Run(cfg, topped, after)) && Run(cfg, topped, after).sweep.Measured?
  {
    WorldNext(cfg, measured, SweepMeasure);
    MeasureIs(cfg, measured);
    RunLater(cfg, Next(cfg, measured, SweepMeasure), after);
  }

  lemma ThroughAll(w: World, selected: World, measured: World, topped: World, committed: World, keys: set<Key>)
    requires selected.boxes == map d | d in w.boxes :: w.boxes[d].(mark := Picked(NumbersFor(keys, d)))
    requires AllLater(selected, measured)
    requires topped.boxes == map d | d in measured.boxes :: MeasureBox(measured.boxes[d])
    requires AllLater(topped, committed)
    ensures AllThrough(w, keys, measured, committed)
  {
    forall d | d in w.boxes
      ensures d in measured.boxes && d in committed.boxes
      ensures Through(w.boxes[d], measured.boxes[d], committed.boxes[d], NumbersFor(keys, d))
    {
      assert Later(selected.boxes[d], measured.boxes[d]);
      assert Later(topped.boxes[d], committed.boxes[d]);
    }
    forall d | d in committed.boxes && d !in w.boxes
      ensures Newer(committed.boxes[d])
    {
      if d in measured.boxes {
        assert Newer(measured.boxes[d]) && Later(topped.boxes[d], committed.boxes[d]);
      }
    }
  }

  /** A mailbox that was not there at the select. */
  lemma NewerAbove(cfg: Config, w: World, keys: set<Key>, b: Box, d: nat, clock: int, cutoff: int)
    requires keys <= ExpiredKeys(w) && d !in w.boxes && Newer(b) && BoxOk(cfg, b, clock, cutoff)
    ensures BoxAbove(b) && SweepBox(b) == b && NumbersFor(keys, d) == {}
  {
    forall r | r in b.rows
      ensures r.number > 0
    {
    }
    forall key | key in keys
      ensures key.device != d
    {
      assert key in ExpiredKeys(w);
    }
  }

  lemma AboveByBox(w': World, committed: World)
    requires w'.boxes == map d | d in committed.boxes :: SweepBox(committed.boxes[d])
    ensures AllAbove(w') <==> forall d :: d in committed.boxes ==> BoxAbove(SweepBox(committed.boxes[d]))
  {
    if AllAbove(w') {
      forall d | d in committed.boxes
        ensures BoxAbove(SweepBox(committed.boxes[d]))
      {
        assert w'.boxes[d] == SweepBox(committed.boxes[d]);
      }
    }
  }

  /** Whatever runs while a pass is open, everything queued after it is above its watermark if and only
      if no row queued at the commit and not selected was at or below it, and none has a later one of
      its device and day that was selected and still there to be measured. */
  lemma AboveAfterPassAmongExactly(cfg: Config, w: World, keys: set<Key>, before: seq<Event>, after: seq<Event>,
                                   measured: World, committed: World)
    requires WorldOk(cfg, w) && w.sweep.Ready? && keys != {} && IsBatch(w, keys)
    requires NoSweep(before) && NoSweep(after)
    requires measured == AtMeasure(cfg, w, keys, before) && committed == AtCommit(cfg, w, keys, before, after)
    ensures AllAbove(PassAmong(cfg, w, keys, before, after)) <==>
      UnselectedAbove(committed, keys) && !SplitsAmong(measured, committed, keys)
  {
    OpenPass(cfg, w, keys, before, after);
    CommittedAboveExactly(cfg, w, keys, measured, committed);
  }

  lemma CommittedAboveExactly(cfg: Config, w: World, keys: set<Key>, measured: World, committed: World)
    requires WorldOk(cfg, w) && IsBatch(w, keys) && WorldOk(cfg, committed) && committed.sweep.Measured?
    requires AllThrough(w, keys, measured, committed)
    ensures AllAbove(Next(cfg, committed, SweepCommit)) <==>
      UnselectedAbove(committed, keys) && !SplitsAmong(measured, committed, keys)
  {
    CommitIs(cfg, committed);
    AboveByBox(Next(cfg, committed, SweepCommit), committed);
    forall d | d in committed.boxes
      ensures BoxAbove(SweepBox(committed.boxes[d])) <==> BoxFine(measured, committed, keys, d)
    {
      BoxFineExactly(cfg, w, keys, measured, committed, d);
    }
    FineByBox(measured, committed, keys);
  }

  ghost predicate BoxFine(measured: World, committed: World, keys: set<Key>, d: nat)
    requires d in committed.boxes
  {
    && (forall r :: r in committed.boxes[d].rows && r.number !in NumbersFor(keys, d) ==>
          r.number > committed.boxes[d].prunedThrough)
    && !(d in measured.boxes && PartsAmong(measured.boxes[d], committed.boxes[d], NumbersFor(keys, d)))
  }

  lemma FineByBox(measured: World, committed: World, keys: set<Key>)
    ensures UnselectedAbove(committed, keys) && !SplitsAmong(measured, committed, keys) <==>
      forall d :: d in committed.boxes ==> BoxFine(measured, committed, keys, d)
  {
  }

  lemma BoxFineExactly(cfg: Config, w: World, keys: set<Key>, measured: World, committed: World, d: nat)
    requires WorldOk(cfg, w) && IsBatch(w, keys) && WorldOk(cfg, committed) && d in committed.boxes
    requires d in w.boxes ==>
      d in measured.boxes && Through(w.boxes[d], measured.boxes[d], committed.boxes[d], NumbersFor(keys, d))
    requires d !in w.boxes ==> Newer(committed.boxes[d])
    ensures BoxAbove(SweepBox(committed.boxes[d])) <==> BoxFine(measured, committed, keys, d)
  {
    if d in w.boxes {
      BoxAboveAmong(cfg, w, keys, d, measured.boxes[d], committed.boxes[d]);
    } else {
      NewerAbove(cfg, w, keys, committed.boxes[d], d, committed.clock, committed.cutoff);
    }
  }

  // The condition on the store alone

  /** Where no batch parts a day, nothing that runs meanwhile makes it so. */
  lemma UnpartedAmong(cfg: Config, w: World, keys: set<Key>, before: seq<Event>, after: seq<Event>)
    requires WorldOk(cfg, w) && w.sweep.Ready? && keys != {} && IsBatch(w, keys) && AllAbove(w)
    requires NoSweep(before) && NoSweep(after) && !Splits(w, keys)
    ensures AllAbove(PassAmong(cfg, w, keys, before, after))
  {
    OpenPass(cfg, w, keys, before, after);
    UnpartedCommit(cfg, w, keys, AtMeasure(cfg, w, keys, before), AtCommit(cfg, w, keys, before, after));
  }

  lemma UnpartedCommit(cfg: Config, w: World, keys: set<Key>, measured: World, committed: World)
    requires WorldOk(cfg, w) && IsBatch(w, keys) && AllAbove(w) && !Splits(w, keys)
    requires WorldOk(cfg, committed) && committed.sweep.Measured? && AllThrough(w, keys, measured, committed)
    ensures AllAbove(Next(cfg, committed, SweepCommit))
  {
    CommitIs(cfg, committed);
    AboveByBox(Next(cfg, committed, SweepCommit), committed);
    forall d | d in committed.boxes
      ensures BoxAbove(SweepBox(committed.boxes[d]))
    {
      if d in w.boxes {
        UnpartedBox(cfg, w, keys, d, measured.boxes[d], committed.boxes[d]);
      } else {
        NewerAbove(cfg, w, keys, committed.boxes[d], d, committed.clock, committed.cutoff);
      }
    }
  }

  lemma UnpartedBox(cfg: Config, w: World, keys: set<Key>, d: nat, measured: Box, committed: Box)
    requires WorldOk(cfg, w) && IsBatch(w, keys) && d in w.boxes && AllAbove(w) && !Splits(w, keys)
    requires Through(w.boxes[d], measured, committed, NumbersFor(keys, d))
    ensures BoxAbove(SweepBox(committed))
  {
    var numbers := NumbersFor(keys, d);
    assert BoxOk(cfg, w.boxes[d], w.clock, w.cutoff) && !Parts(w.boxes[d], numbers);
    forall r | r in committed.rows
      ensures r.number > committed.prunedThrough
    {
      if r.number <= w.boxes[d].queueSeq {
        WasQueued(w.boxes[d], measured, committed, numbers, r);
      }
    }
    forall lo, hi
      ensures !Straddles(measured, committed, numbers, lo, hi)
    {
      if Straddles(measured, committed, numbers, lo, hi) {
        PartedWhileOpen(cfg, w, keys, d, measured, committed, lo, hi);
      }
    }
    BoxAboveAmong(cfg, w, keys, d, measured, committed);
  }

  /** Every answer to the batch query, with anything running while the pass is open. */
  ghost predicate AlwaysAbove(cfg: Config, w: World) {
    forall keys: set<Key>, before: seq<Event>, after: seq<Event> ::
      keys != {} && IsBatch(w, keys) && NoSweep(before) && NoSweep(after) ==>
        AllAbove(PassAmong(cfg, w, keys, before, after))
  }

  /** Before a pass with everything above its watermark: whatever the query answers and whatever runs
      while the pass is open, it stays so if and only if the cut falls inside no day on which some
      device has two envelopes. */
  lemma PassSafeAmongExactly(cfg: Config, w: World)
    requires WorldOk(cfg, w) && w.sweep.Ready? && AllAbove(w)
    ensures AlwaysAbove(cfg, w) <==> !CanSplit(w)
  {
    if CanSplit(w) {
      var keys := CutCanSplit(cfg, w);
      AboveAfterPassExactly(cfg, w, keys);
      assert PassAmong(cfg, w, keys, [], []) == OnePass(cfg, w, keys);
      assert NoSweep([]);
    } else {
      forall keys: set<Key>, before: seq<Event>, after: seq<Event>
        | keys != {} && IsBatch(w, keys) && NoSweep(before) && NoSweep(after)
        ensures AllAbove(PassAmong(cfg, w, keys, before, after))
      {
        if Splits(w, keys) {
          SplitNeedsCut(cfg, w, keys);
        }
        UnpartedAmong(cfg, w, keys, before, after);
      }
    }
  }
}
