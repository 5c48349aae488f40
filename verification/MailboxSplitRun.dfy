/** A run that does it: more than a batch of envelopes sent to one device on one day, one send each,
    then expired and swept. The first pass leaves the first envelope queued below the watermark. */
module MailboxSplitRun {
  import opened MailboxSend
  import opened Mailbox
  import opened MailboxSafety
  import opened MailboxTheorems
  import opened MailboxSweep
  import opened MailboxSplit

  /** The smallest envelope the backend stores. */
  const ENVELOPE: nat := 1024

  /** Device 0 after `n` such envelopes sent on one day. */
  function Filled(n: nat, day: int): Box {
    Box(false, true, n, 0, Letters(n, day), Free, Unmarked, seq(n, _ => day), {})
  }

  function Letters(n: nat, day: int): seq<Row> {
    seq(n, i requires 0 <= i < n => Row(i + 1, ENVELOPE, day))
  }

  function Only(b: Box, clock: int, sweep: Sweep, cutoff: int): World {
    World(map[0 := b], map[], clock, sweep, cutoff)
  }

  const LETTER: seq<Message> := [Message(0, ENVELOPE)]

  const ONE_SEND: seq<Event> := [Begin(0, LETTER), Lock(0), Size(0), StampNext(0), Commit(0)]

  function Sends(n: nat): seq<Event> {
    if n == 0 then [] else Sends(n - 1) + ONE_SEND
  }

  function Ticks(n: nat): seq<Event> {
    if n == 0 then [] else Ticks(n - 1) + [Tick]
  }

  /** Register a device and send it one envelope more than a batch. */
  function Busy(): seq<Event> {
    [Register(0)] + Sends(BATCH + 1)
  }

  /** Then let them expire and begin the sweep. */
  function BusyDay(cfg: Config): seq<Event> {
    Busy() + (Ticks(cfg.ttl + 1) + [SweepStart])
  }

  /** All but the first. */
  function AllButFirst(n: nat): set<Key> {
    set i | 2 <= i <= n + 1 :: Key(0, i)
  }

  lemma LettersNext(n: nat, day: int)
    ensures Letters(n + 1, day) == Letters(n, day) + [Row(n + 1, ENVELOPE, day)]
  {
  }

  lemma {:induction false} LettersTotal(n: nat, day: int)
    ensures Total(Letters(n, day)) == ENVELOPE * n
  {
    if n > 0 {
      LettersTotal(n - 1, day);
      LettersNext(n - 1, day);
      assert Letters(n, day)[..n - 1] == Letters(n - 1, day);
    }
  }

  lemma LetterIncoming()
    ensures Incoming(LETTER, 0) == ENVELOPE && Wanted(LETTER) == [0]
  {
    SizesAppend([], Message(0, ENVELOPE), 0);
    SumAppend([], ENVELOPE);
    assert [] + [Message(0, ENVELOPE)] == LETTER && [] + [ENVELOPE] == [ENVELOPE];
    assert LETTER[1..] == [];
  }

  function Sending(b: Box, day: int, cutoff: int, phase: Phase): World {
    Only(b, day, Idle, cutoff).(sends := map[0 := Send(LETTER, [0], phase)])
  }

  lemma BeginAndLock(cfg: Config, n: nat, day: int, cutoff: int)
    ensures var w := Next(cfg, Only(Filled(n, day), day, Idle, cutoff), Begin(0, LETTER));
      Next(cfg, w, Lock(0)) == Sending(Filled(n, day).(hold := Locked(0)), day, cutoff, Locking(1))
  {
    LetterIncoming();
    var w := Next(cfg, Only(Filled(n, day), day, Idle, cutoff), Begin(0, LETTER));
    assert w == Sending(Filled(n, day), day, cutoff, Locking(0));
  }

  lemma SizeAndStamp(cfg: Config, n: nat, day: int, cutoff: int)
    requires ENVELOPE * (n + 1) <= cfg.limit
    ensures var w := Next(cfg, Sending(Filled(n, day).(hold := Locked(0)), day, cutoff, Locking(1)), Size(0));
      Next(cfg, w, StampNext(0))
      == Sending(Filled(n, day).(hold := Open(0, ENVELOPE * n, [Row(n + 1, ENVELOPE, day)])), day, cutoff, Stamping(1))
  {
    LetterIncoming();
    LettersTotal(n, day);
    var w := Next(cfg, Sending(Filled(n, day).(hold := Locked(0)), day, cutoff, Locking(1)), Size(0));
    assert w == Sending(Filled(n, day).(hold := Open(0, ENVELOPE * n, [])), day, cutoff, Stamping(0));
    assert [] + [Row(n + 1, ENVELOPE, day)] == [Row(n + 1, ENVELOPE, day)];
  }

  lemma CommitOne(cfg: Config, n: nat, day: int, cutoff: int)
    ensures var b := Filled(n, day).(hold := Open(0, ENVELOPE * n, [Row(n + 1, ENVELOPE, day)]));
      Next(cfg, Sending(b, day, cutoff, Stamping(1)), Commit(0)) == Only(Filled(n + 1, day), day, Idle, cutoff)
  {
    LettersNext(n, day);
    var b := Filled(n, day).(hold := Open(0, ENVELOPE * n, [Row(n + 1, ENVELOPE, day)]));
    assert b.days + Days(b.hold.rows) == Filled(n + 1, day).days;
    assert CommitBox(b, 0) == Filled(n + 1, day);
  }

  lemma RunFive(cfg: Config, w: World, a: Event, b: Event, c: Event, d: Event, e: Event)
    ensures Run(cfg, w, [a, b, c, d, e]) == Next(cfg, Next(cfg, Next(cfg, Next(cfg, Next(cfg, w, a), b), c), d), e)
  {
    assert [a, b, c, d, e] == [a, b, c] + [d, e];
    RunAppend(cfg, w, [a, b, c], [d, e]);
    RunThree(cfg, w, a, b, c);
    RunTwo(cfg, Next(cfg, Next(cfg, Next(cfg, w, a), b), c), d, e);
  }

  lemma RunThree(cfg: Config, w: World, a: Event, b: Event, c: Event)
    ensures Run(cfg, w, [a, b, c]) == Next(cfg, Next(cfg, Next(cfg, w, a), b), c)
  {
    assert [a, b, c] == [a] + [b, c];
    RunAppend(cfg, w, [a], [b, c]);
    RunOne(cfg, w, a);
    RunTwo(cfg, Next(cfg, w, a), b, c);
  }

  lemma RunTwo(cfg: Config, w: World, a: Event, b: Event)
    ensures Run(cfg, w, [a, b]) == Next(cfg, Next(cfg, w, a), b)
  {
    assert [a, b] == [a] + [b];
    RunAppend(cfg, w, [a], [b]);
    RunOne(cfg, w, a);
    RunOne(cfg, Next(cfg, w, a), b);
  }

  lemma RunOne(cfg: Config, w: World, e: Event)
    ensures Run(cfg, w, [e]) == Next(cfg, w, e)
  {
    assert [e][1..] == [];
  }

  lemma OneSend(cfg: Config, n: nat, day: int, cutoff: int)
    requires ENVELOPE * (n + 1) <= cfg.limit
    ensures Run(cfg, Only(Filled(n, day), day, Idle, cutoff), ONE_SEND) == Only(Filled(n + 1, day), day, Idle, cutoff)
  {
    RunFive(cfg, Only(Filled(n, day), day, Idle, cutoff), Begin(0, LETTER), Lock(0), Size(0), StampNext(0), Commit(0));
    BeginAndLock(cfg, n, day, cutoff);
    SizeAndStamp(cfg, n, day, cutoff);
    CommitOne(cfg, n, day, cutoff);
  }

  lemma {:induction false} SendsFill(cfg: Config, n: nat, day: int, cutoff: int)
    requires ENVELOPE * n <= cfg.limit
    ensures Run(cfg, Only(Filled(0, day), day, Idle, cutoff), Sends(n)) == Only(Filled(n, day), day, Idle, cutoff)
  {
    if n > 0 {
      SendsFill(cfg, n - 1, day, cutoff);
      RunAppend(cfg, Only(Filled(0, day), day, Idle, cutoff), Sends(n - 1), ONE_SEND);
      OneSend(cfg, n - 1, day, cutoff);
    }
  }

  lemma {:induction false} TicksPass(cfg: Config, w: World, n: nat)
    ensures Run(cfg, w, Ticks(n)) == w.(clock := w.clock + n)
  {
    if n > 0 {
      TicksPass(cfg, w, n - 1);
      RunAppend(cfg, w, Ticks(n - 1), [Tick]);
      RunOne(cfg, Run(cfg, w, Ticks(n - 1)), Tick);
    }
  }

  lemma RegisterIs(cfg: Config, today: int)
    ensures Run(cfg, Start(cfg, today), [Register(0)]) == Only(Filled(0, today), today, Idle, today - cfg.ttl)
  {
    RunOne(cfg, Start(cfg, today), Register(0));
    assert Letters(0, today) == [] && seq(0, _ => today) == [];
  }

  lemma BusyIs(cfg: Config, today: int)
    requires ENVELOPE * (BATCH + 1) <= cfg.limit
    ensures Run(cfg, Start(cfg, today), Busy()) == Only(Filled(BATCH + 1, today), today, Idle, today - cfg.ttl)
  {
    RegisterIs(cfg, today);
    RunAppend(cfg, Start(cfg, today), [Register(0)], Sends(BATCH + 1));
    SendsFill(cfg, BATCH + 1, today, today - cfg.ttl);
  }

  lemma WaitAndSweep(cfg: Config, w: World)
    requires w.sweep.Idle?
    ensures Run(cfg, w, Ticks(cfg.ttl + 1) + [SweepStart])
         == w.(clock := w.clock + cfg.ttl + 1, sweep := Ready, cutoff := w.clock + 1)
  {
    RunAppend(cfg, w, Ticks(cfg.ttl + 1), [SweepStart]);
    TicksPass(cfg, w, cfg.ttl + 1);
    RunOne(cfg, w.(clock := w.clock + cfg.ttl + 1), SweepStart);
  }

  lemma BusyDayIs(cfg: Config, today: int)
    requires ENVELOPE * (BATCH + 1) <= cfg.limit
    ensures Run(cfg, Start(cfg, today), BusyDay(cfg))
         == Only(Filled(BATCH + 1, today), today + cfg.ttl + 1, Ready, today + 1)
  {
    BusyIs(cfg, today);
    WaitAndSweep(cfg, Only(Filled(BATCH + 1, today), today, Idle, today - cfg.ttl));
    RunAppend(cfg, Start(cfg, today), Busy(), Ticks(cfg.ttl + 1) + [SweepStart]);
  }

  lemma {:induction false} AllButFirstSize(n: nat)
    ensures |AllButFirst(n)| == n
  {
    if n > 0 {
      AllButFirstSize(n - 1);
      assert AllButFirst(n) == AllButFirst(n - 1) + {Key(0, n + 1)};
    }
  }

  /** Everything sent is expired, and the query may answer with all but the first. */
  lemma AllButFirstIsBatch(day: int, clock: int)
    ensures IsBatch(Only(Filled(BATCH + 1, day), clock, Ready, day + 1), AllButFirst(BATCH))
  {
    var w := Only(Filled(BATCH + 1, day), clock, Ready, day + 1);
    AllButFirstSize(BATCH);
    forall key | key in AllButFirst(BATCH)
      ensures key in ExpiredKeys(w)
    {
      assert w.boxes[0].rows[key.number - 1] == Row(key.number, ENVELOPE, day);
      assert w.boxes[0].rows[key.number - 1] in w.boxes[0].rows;
    }
  }

  lemma FirstIsLeft(b: Box, day: int)
    requires b == PassBox(Filled(BATCH + 1, day), NumbersFor(AllButFirst(BATCH), 0))
    ensures Queued(b, 1) && b.prunedThrough == BATCH + 1
  {
    var full, numbers := Filled(BATCH + 1, day), NumbersFor(AllButFirst(BATCH), 0);
    InNumbers(AllButFirst(BATCH), 0, 1);
    InNumbers(AllButFirst(BATCH), 0, BATCH + 1);
    WithoutIs(full.rows, numbers);
    TopIs(full.rows, numbers);
    assert full.rows[0] in full.rows && full.rows[BATCH] in full.rows;
    assert full.rows[0] in b.rows;
  }

  /** A pass the query allows, after which envelope 1 is queued under a watermark of 1001. */
  ghost predicate LeftBehind(w: World, keys: set<Key>, after: World) {
    && w.sweep.Ready? && AllAbove(w) && keys != {} && IsBatch(w, keys)
    && 0 in after.boxes && Queued(after.boxes[0], 1) && after.boxes[0].prunedThrough == BATCH + 1
  }

  lemma FilledPass(cfg: Config, day: int) returns (w: World)
    ensures w == Only(Filled(BATCH + 1, day), day + cfg.ttl + 1, Ready, day + 1)
    ensures LeftBehind(w, AllButFirst(BATCH), OnePass(cfg, w, AllButFirst(BATCH)))
  {
    w := Only(Filled(BATCH + 1, day), day + cfg.ttl + 1, Ready, day + 1);
    var keys := AllButFirst(BATCH);
    AllButFirstIsBatch(day, day + cfg.ttl + 1);
    assert Key(0, 2) in keys;
    PassIs(cfg, w, keys);
    FirstIsLeft(OnePass(cfg, w, keys).boxes[0], day);
  }

  /** From an empty store, with room for the envelopes: everything is above its watermark when the
      sweep's first pass begins, the batch is one the query may return, and after the pass envelope 1
      is still queued while the watermark says 1001 are gone. */
  lemma SplitDay(cfg: Config, today: int)
    requires ENVELOPE * (BATCH + 1) <= cfg.limit
    ensures WorldOk(cfg, Run(cfg, Start(cfg, today), BusyDay(cfg)))
    ensures LeftBehind(Run(cfg, Start(cfg, today), BusyDay(cfg)), AllButFirst(BATCH),
                       Run(cfg, Start(cfg, today), BusyDay(cfg) + PASS))
  {
    ReachableOk(cfg, today, BusyDay(cfg));
    var w := FilledPass(cfg, today);
    BusyDayIs(cfg, today);
    PassLeaves(cfg, Start(cfg, today), BusyDay(cfg), w);
  }

  lemma ReachableOk(cfg: Config, today: int, events: seq<Event>)
    ensures WorldOk(cfg, Run(cfg, Start(cfg, today), events))
  {
    StartOk(cfg, today);
    RunOk(cfg, Start(cfg, today), events);
  }

  lemma PassLeaves(cfg: Config, start: World, events: seq<Event>, w: World)
    requires Run(cfg, start, events) == w && LeftBehind(w, AllButFirst(BATCH), OnePass(cfg, w, AllButFirst(BATCH)))
    ensures LeftBehind(Run(cfg, start, events), AllButFirst(BATCH), Run(cfg, start, events + PASS))
  {
    PassRuns(cfg, start, events);
  }

  const PASS: seq<Event> := [SweepSelect(AllButFirst(BATCH)), SweepMeasure, SweepCommit]

  lemma PassRuns(cfg: Config, w: World, events: seq<Event>)
    ensures Run(cfg, w, events + PASS) == OnePass(cfg, Run(cfg, w, events), AllButFirst(BATCH))
  {
    RunAppend(cfg, w, events, PASS);
    RunThree(cfg, Run(cfg, w, events), SweepSelect(AllButFirst(BATCH)), SweepMeasure, SweepCommit);
  }
}
