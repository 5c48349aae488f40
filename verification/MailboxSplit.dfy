/** When one pass of the sweep leaves a queued envelope at or below its device's watermark: exactly
    when the batch cut falls inside a day and parts two envelopes of one device. */
module MailboxSplit {
  import opened MailboxSend
  import opened Mailbox
  import opened MailboxSafety
  import opened MailboxSweep

  /** Every queued envelope is above its device's watermark. */
  predicate AllAbove(w: World) {
    forall d, r :: d in w.boxes && r in w.boxes[d].rows ==> r.number > w.boxes[d].prunedThrough
  }

  /** One pass with nothing running between its statements. */
  function OnePass(cfg: Config, w: World, keys: set<Key>): World {
    Next(cfg, Next(cfg, Next(cfg, w, SweepSelect(keys)), SweepMeasure), SweepCommit)
  }

  function PassBox(b: Box, numbers: set<nat>): Box {
    var top := Top(b.rows, numbers);
    b.(prunedThrough := if top > b.prunedThrough then top else b.prunedThrough,
       rows := Without(b.rows, numbers), mark := Unmarked)
  }

  lemma PassIs(cfg: Config, w: World, keys: set<Key>)
    requires w.sweep.Ready? && keys != {} && keys <= ExpiredKeys(w)
    ensures OnePass(cfg, w, keys) == w.(boxes := map d | d in w.boxes :: PassBox(w.boxes[d], NumbersFor(keys, d)))
  {
    SelectMarks(cfg, w, keys);
    var w1 := Next(cfg, w, SweepSelect(keys));
    var w2 := Next(cfg, w1, SweepMeasure);
    MeasureIs(cfg, w1);
    CommitIs(cfg, w2);
    forall d | d in w.boxes
      ensures SweepBox(MeasureBox(w1.boxes[d])) == PassBox(w.boxes[d], NumbersFor(keys, d))
    {
      PassBoxIs(w.boxes[d], NumbersFor(keys, d));
    }
  }

  lemma MeasureIs(cfg: Config, w: World)
    requires w.sweep.Selected?
    ensures Next(cfg, w, SweepMeasure) == w.(sweep := Measured, boxes := map d | d in w.boxes :: MeasureBox(w.boxes[d]))
  {
  }

  lemma CommitIs(cfg: Config, w: World)
    requires w.sweep.Measured?
    ensures Next(cfg, w, SweepCommit) == w.(sweep := Ready, boxes := map d | d in w.boxes :: SweepBox(w.boxes[d]))
  {
  }

  lemma PassBoxIs(b: Box, numbers: set<nat>)
    ensures SweepBox(MeasureBox(b.(mark := Picked(numbers)))) == PassBox(b, numbers)
  {
  }

  // The condition on the batch

  /** Two envelopes of one device and day, the later one selected and the earlier one not. */
  predicate Parts(b: Box, numbers: set<nat>) {
    exists lo, hi :: lo in b.rows && hi in b.rows
                     && lo.number !in numbers && hi.number in numbers && lo.number < hi.number && lo.day == hi.day
  }

  predicate Splits(w: World, keys: set<Key>) {
    exists d :: d in w.boxes && Parts(w.boxes[d], NumbersFor(keys, d))
  }

  /** What the pass does not select was above the mark to begin with. */
  predicate UnselectedAbove(w: World, keys: set<Key>) {
    forall d, r :: d in w.boxes && r in w.boxes[d].rows && r.number !in NumbersFor(keys, d) ==>
      r.number > w.boxes[d].prunedThrough
  }

  lemma RowDay(cfg: Config, w: World, d: nat, r: Row)
    requires WorldOk(cfg, w) && d in w.boxes && r in w.boxes[d].rows
    ensures DayOf(w, Key(d, r.number)) == r.day
    ensures r.day < w.cutoff <==> Key(d, r.number) in ExpiredKeys(w)
  {
    assert BoxOk(cfg, w.boxes[d], w.clock, w.cutoff);
  }

  /** A lower number left behind by a batch was stamped on the same day as the higher one taken. */
  lemma PartedSameDay(cfg: Config, w: World, keys: set<Key>, d: nat, lo: Row, hi: Row)
    requires WorldOk(cfg, w) && IsBatch(w, keys) && d in w.boxes && lo in w.boxes[d].rows && hi in w.boxes[d].rows
    requires Key(d, lo.number) !in keys && Key(d, hi.number) in keys && lo.number < hi.number
    ensures lo.day == hi.day
  {
    RowDay(cfg, w, d, lo);
    RowDay(cfg, w, d, hi);
    assert BoxOk(cfg, w.boxes[d], w.clock, w.cutoff);
    assert lo.day <= hi.day < w.cutoff;
    assert Key(d, lo.number) in ExpiredKeys(w) - keys;
  }

  lemma InNumbers(keys: set<Key>, d: nat, n: nat)
    ensures n in NumbersFor(keys, d) <==> Key(d, n) in keys
  {
    assert Key(d, n) in keys ==> Key(d, n).number in NumbersFor(keys, d);
  }

  predicate AboveTaken(b: Box, numbers: set<nat>, r: Row) {
    forall hi :: hi in b.rows && hi.number in numbers ==> r.number > hi.number
  }

  /** One mailbox after the pass. */
  lemma BoxAboveExactly(b: Box, numbers: set<nat>)
    ensures (forall r :: r in PassBox(b, numbers).rows ==> r.number > PassBox(b, numbers).prunedThrough)
       <==> (forall r :: r in b.rows && r.number !in numbers ==>
             r.number > b.prunedThrough && AboveTaken(b, numbers, r))
  {
    WithoutIs(b.rows, numbers);
    TopIs(b.rows, numbers);
    var b' := PassBox(b, numbers);
    if forall r :: r in b'.rows ==> r.number > b'.prunedThrough {
      forall r | r in b.rows && r.number !in numbers
        ensures r.number > b.prunedThrough && AboveTaken(b, numbers, r)
      {
        assert r in b'.rows;
      }
    }
  }

  /** After a pass everything queued is above its watermark if and only if what the pass did not
      select was so before, and the batch parts no two envelopes of one device and day. */
  lemma AboveAfterPassExactly(cfg: Config, w: World, keys: set<Key>)
    requires WorldOk(cfg, w) && w.sweep.Ready? && keys != {} && IsBatch(w, keys)
    ensures AllAbove(OnePass(cfg, w, keys)) <==> UnselectedAbove(w, keys) && !Splits(w, keys)
  {
    PassIs(cfg, w, keys);
    var w' := OnePass(cfg, w, keys);
    forall d | d in w.boxes
      ensures d in w'.boxes && w'.boxes[d] == PassBox(w.boxes[d], NumbersFor(keys, d))
    {
    }
    if AllAbove(w') {
      forall d | d in w.boxes
        ensures !Parts(w.boxes[d], NumbersFor(keys, d))
        ensures forall r :: r in w.boxes[d].rows && r.number !in NumbersFor(keys, d) ==>
          r.number > w.boxes[d].prunedThrough
      {
        BoxAboveExactly(w.boxes[d], NumbersFor(keys, d));
        assert forall r :: r in w'.boxes[d].rows ==> r.number > w'.boxes[d].prunedThrough;
      }
    }
    if UnselectedAbove(w, keys) && !Splits(w, keys) {
      forall d | d in w'.boxes
        ensures forall r :: r in w'.boxes[d].rows ==> r.number > w'.boxes[d].prunedThrough
      {
        UnpartedAbove(cfg, w, keys, d);
      }
    }
  }

  lemma UnpartedAbove(cfg: Config, w: World, keys: set<Key>, d: nat)
    requires WorldOk(cfg, w) && IsBatch(w, keys) && d in w.boxes && UnselectedAbove(w, keys)
    requires !Parts(w.boxes[d], NumbersFor(keys, d))
    ensures var b := PassBox(w.boxes[d], NumbersFor(keys, d)); forall r :: r in b.rows ==> r.number > b.prunedThrough
  {
    var b, numbers := w.boxes[d], NumbersFor(keys, d);
    forall r | r in b.rows && r.number !in numbers
      ensures r.number > b.prunedThrough && AboveTaken(b, numbers, r)
    {
      forall hi | hi in b.rows && hi.number in numbers
        ensures r.number > hi.number
      {
        InNumbers(keys, d, r.number);
        InNumbers(keys, d, hi.number);
        if r.number < hi.number {
          PartedSameDay(cfg, w, keys, d, r, hi);
        }
      }
    }
    BoxAboveExactly(b, numbers);
  }

  // The condition on the mailboxes alone

  function Older(w: World, day: int): set<Key> {
    set key | key in ExpiredKeys(w) && DayOf(w, key) < day
  }

  function UpTo(w: World, day: int): set<Key> {
    set key | key in ExpiredKeys(w) && DayOf(w, key) <= day
  }

  /** The cut of a full batch falls inside this day: some but not all of it is taken. */
  predicate CutsDay(w: World, day: int) {
    day < w.cutoff && |Older(w, day)| < BATCH < |UpTo(w, day)|
  }

  predicate TwoOnDay(b: Box, lo: Row) {
    lo in b.rows && exists hi :: hi in b.rows && lo.number < hi.number && lo.day == hi.day
  }

  /** Some device has two envelopes on the day the cut falls inside. */
  predicate CanSplit(w: World) {
    exists d, lo :: d in w.boxes && lo in w.boxes[d].rows && CutsDay(w, lo.day) && TwoOnDay(w.boxes[d], lo)
  }

  lemma SplitNeedsCut(cfg: Config, w: World, keys: set<Key>)
    requires WorldOk(cfg, w) && IsBatch(w, keys) && Splits(w, keys)
    ensures CanSplit(w)
  {
    var d :| d in w.boxes && Parts(w.boxes[d], NumbersFor(keys, d));
    var lo, hi :| lo in w.boxes[d].rows && hi in w.boxes[d].rows
                  && lo.number !in NumbersFor(keys, d) && hi.number in NumbersFor(keys, d) && lo.number < hi.number
                  && lo.day == hi.day;
    InNumbers(keys, d, lo.number);
    InNumbers(keys, d, hi.number);
    PartedIsCut(cfg, w, keys, d, lo, hi);
  }

  lemma PartedIsCut(cfg: Config, w: World, keys: set<Key>, d: nat, lo: Row, hi: Row)
    requires WorldOk(cfg, w) && IsBatch(w, keys) && d in w.boxes && lo in w.boxes[d].rows && hi in w.boxes[d].rows
    requires Key(d, lo.number) !in keys && Key(d, hi.number) in keys && lo.number < hi.number && lo.day == hi.day
    ensures CutsDay(w, lo.day) && TwoOnDay(w.boxes[d], lo)
  {
    RowDay(cfg, w, d, lo);
    RowDay(cfg, w, d, hi);
    CutBetween(w, keys, Key(d, lo.number), Key(d, hi.number));
  }

  /** Around an envelope left and one taken of the same day, the batch holds all older ones and none newer. */
  lemma CutBetween(w: World, keys: set<Key>, lo: Key, hi: Key)
    requires IsBatch(w, keys) && lo in ExpiredKeys(w) && lo !in keys && hi in keys && DayOf(w, lo) == DayOf(w, hi)
    ensures |Older(w, DayOf(w, lo))| < BATCH < |UpTo(w, DayOf(w, lo))|
  {
    var day := DayOf(w, lo);
    assert |keys| == BATCH;
    assert Older(w, day) <= keys - {hi} by {
      forall key | key in Older(w, day)
        ensures key in keys - {hi}
      {
        assert key !in keys ==> key in ExpiredKeys(w) - keys;
      }
    }
    Smaller(Older(w, day), keys - {hi});
    assert keys + {lo} <= UpTo(w, day) by {
      forall key | key in keys
        ensures key in UpTo(w, day)
      {
        assert lo in ExpiredKeys(w) - keys;
      }
    }
    Smaller(keys + {lo}, UpTo(w, day));
    assert |keys + {lo}| == |keys| + 1;
  }

  lemma {:induction false} SubsetOfSize(s: set<Key>, n: nat) returns (t: set<Key>)
    requires n <= |s|
    ensures t <= s && |t| == n
    decreases n
  {
    t := {};
    if n > 0 {
      var x :| x in s;
      t := SubsetOfSize(s - {x}, n - 1);
      t := t + {x};
    }
  }

  /** Where the cut can part two envelopes, some answer to the batch query does. */
  lemma CutCanSplit(cfg: Config, w: World) returns (keys: set<Key>)
    requires WorldOk(cfg, w) && CanSplit(w)
    ensures IsBatch(w, keys) && Splits(w, keys)
  {
    var d, lo :| d in w.boxes && lo in w.boxes[d].rows && CutsDay(w, lo.day) && TwoOnDay(w.boxes[d], lo);
    var hi :| hi in w.boxes[d].rows && lo.number < hi.number && lo.day == hi.day;
    RowDay(cfg, w, d, lo);
    RowDay(cfg, w, d, hi);
    keys := CutAt(w, Key(d, lo.number), Key(d, hi.number));
    InNumbers(keys, d, lo.number);
    InNumbers(keys, d, hi.number);
    assert Parts(w.boxes[d], NumbersFor(keys, d));
  }

  lemma CutAt(w: World, lo: Key, hi: Key) returns (keys: set<Key>)
    requires lo in ExpiredKeys(w) && hi in ExpiredKeys(w) && lo != hi && DayOf(w, lo) == DayOf(w, hi)
    requires |Older(w, DayOf(w, lo))| < BATCH < |UpTo(w, DayOf(w, lo))|
    ensures IsBatch(w, keys) && hi in keys && lo !in keys
  {
    keys := PickAround(Older(w, DayOf(w, lo)), UpTo(w, DayOf(w, lo)), lo, hi, BATCH);
  }

  lemma PickAround(older: set<Key>, upTo: set<Key>, lo: Key, hi: Key, n: nat) returns (keys: set<Key>)
    requires older <= upTo && lo in upTo - older && hi in upTo - older && lo != hi && |older| < n < |upTo|
    ensures older + {hi} <= keys <= upTo - {lo} && |keys| == n
  {
    var taken, allowed := older + {hi}, upTo - {lo};
    assert |taken| == |older| + 1 && |allowed| == |upTo| - 1;
    assert |allowed - taken| == |allowed| - |taken|;
    var more := SubsetOfSize(allowed - taken, n - |taken|);
    keys := taken + more;
  }

  /** Before a pass with everything above its watermark: every answer to the batch query leaves it so
      if and only if the cut falls inside no day on which some device has two envelopes. */
  lemma PassSafeExactly(cfg: Config, w: World)
    requires WorldOk(cfg, w) && w.sweep.Ready? && AllAbove(w)
    ensures (forall keys :: keys != {} && IsBatch(w, keys) ==> AllAbove(OnePass(cfg, w, keys))) <==> !CanSplit(w)
  {
    if CanSplit(w) {
      var keys := CutCanSplit(cfg, w);
      AboveAfterPassExactly(cfg, w, keys);
    } else {
      forall keys | keys != {} && IsBatch(w, keys)
        ensures AllAbove(OnePass(cfg, w, keys))
      {
        AboveAfterPassExactly(cfg, w, keys);
        if Splits(w, keys) {
          SplitNeedsCut(cfg, w, keys);
        }
      }
    }
  }
}
