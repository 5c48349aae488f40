/** When the limit of three retired pairs refuses a rotation: never before the last day a 32-bit day
    can name, and on that day after a run that starts at enrollment. */
module PrekeyLimit {
  import opened Bytes
  import opened Frames
  import opened PrekeyState
  import opened PrekeyRuns
  import opened PrekeyRotation
  import opened PrekeyMigration
  import opened PrekeyReachable
  import opened PrekeyWitness
  import opened EnrollmentEdges

  function RotateOn(day: u32): Event {
    Rotating(Plenty(), [], [], day)
  }

  const COMMIT: Event := Committing(Zeros(16))

  /** One rotation and its commit, when nothing fails and every retired pair is still in its window. */
  lemma RotateAndCommit(d: Device, day: u32)
    requires d.pending.None? && RotationDue(d, day) && |d.retired| < MAX_RETIRED && d.bundleVersion < U32_MAX
    requires d.currentClassical.id < KEY_ID_MAX && d.currentPq.id < KEY_ID_MAX
    requires Retained(d.retired, day) == d.retired
    ensures var after := Next(Willing(), Next(Willing(), d, RotateOn(day)), COMMIT);
      && after.pending.None? && after.bundleVersion == d.bundleVersion + 1
      && after.currentClassical.id == d.currentClassical.id + 1 && after.currentPq.id == d.currentPq.id + 1
      && after.currentClassical.createdDay == day && after.currentPq.createdDay == day
      && after.retired == d.retired + [RetiredPair(SaturatingAdd(day, RETENTION_DAYS), d.currentClassical, d.currentPq)]
  {
    assert MakeReplacement(Willing(), Plenty(), Prune(d, day), [], [], day).Ok?;
  }

  const LAST_ROTATIONS: seq<Event> :=
    [RotateOn(U32_MAX - 8), COMMIT, RotateOn(U32_MAX - 1), COMMIT, RotateOn(U32_MAX), COMMIT]

  lemma RunTwo(pr: Primitives, d: Device, events: seq<Event>)
    requires |events| >= 2
    ensures Run(pr, d, events) == Run(pr, Next(pr, Next(pr, d, events[0]), events[1]), events[2..])
  {
    assert events[1..][0] == events[1] && events[1..][1..] == events[2..];
  }

  lemma {:induction false} KeptWhole(retired: seq<RetiredPair>, day: u32)
    requires forall pair :: pair in retired ==> pair.retainThrough == U32_MAX
    ensures Retained(retired, day) == retired
  {
    if retired != [] {
      assert retired[0] in retired;
      KeptWhole(retired[1..], day);
      assert retired == [retired[0]] + retired[1..];
    }
  }

  lemma ThreeRotations(d: Device)
    requires d.pending.None? && d.retired == [] && d.bundleVersion == 1
    requires d.currentClassical.id == 1 && d.currentPq.id == 1
    requires d.currentClassical.createdDay == U32_MAX - 15 && d.currentPq.createdDay == U32_MAX - 15
    ensures LimitRefuses(Run(Willing(), d, LAST_ROTATIONS), U32_MAX)
  {
    var events := LAST_ROTATIONS;
    var d1 := Next(Willing(), Next(Willing(), d, events[0]), events[1]);
    RotateAndCommit(d, U32_MAX - 8);
    KeptWhole(d1.retired, U32_MAX - 1);
    var d2 := Next(Willing(), Next(Willing(), d1, events[2]), events[3]);
    RotateAndCommit(d1, U32_MAX - 1);
    KeptWhole(d2.retired, U32_MAX);
    var d3 := Next(Willing(), Next(Willing(), d2, events[4]), events[5]);
    RotateAndCommit(d2, U32_MAX);
    KeptWhole(d3.retired, U32_MAX);
    RunTwo(Willing(), d, events);
    RunTwo(Willing(), d1, events[2..]);
    RunTwo(Willing(), d2, events[4..]);
    assert events[2..][2..] == events[4..] && events[4..][2..] == [];
  }

  // The run that reaches the limit

  /** A run on correct primitives from bytes that migrate, all of it dated up to the bound. */
  ghost predicate RunUpTo(pr: Primitives, input: bytes, migrationDay: u32, events: seq<Event>, bound: u32) {
    && Correct(pr) && Migrate(pr, ByteFrames(), input, migrationDay).Ok? && migrationDay <= bound
    && GoodEvents(events) && DaysUpTo(events, bound)
  }

  /** After such a run the limit refuses a rotation on this day. */
  ghost predicate Refused(pr: Primitives, input: bytes, migrationDay: u32, events: seq<Event>, day: u32, bound: u32) {
    && RunUpTo(pr, input, migrationDay, events, bound) && day <= bound
    && LimitRefuses(Run(pr, Migrate(pr, ByteFrames(), input, migrationDay).value, events), day)
  }

  lemma LastRotationsGood()
    ensures Correct(Willing()) && GoodEvents(LAST_ROTATIONS) && DaysUpTo(LAST_ROTATIONS, U32_MAX)
  {
    WillingIsCorrect();
  }

  /** Enrolled, migrated and rotated on days 8, 1 and 0 before the end of time, each rotation
      committed: the next rotation is refused. */
  lemma LimitReached()
    ensures Refused(Willing(), PackageOf(Ones()), U32_MAX - 8, LAST_ROTATIONS, U32_MAX, U32_MAX)
  {
    LastRotationsGood();
    EarlyIsNotDue(U32_MAX - 8);
    ThreeRotations(Migrate(Willing(), ByteFrames(), PackageOf(Ones()), U32_MAX - 8).value);
  }

  /** The limit refuses nobody while no day passes the bound. */
  ghost predicate NeverRefused(bound: u32) {
    forall pr: Primitives, input: bytes, migrationDay: u32, events: seq<Event>, day: u32 ::
      !Refused(pr, input, migrationDay, events, day, bound)
  }

  lemma NotBefore(pr: Primitives, input: bytes, migrationDay: u32, events: seq<Event>, day: u32, bound: u32)
    requires Refused(pr, input, migrationDay, events, day, bound)
    ensures bound == U32_MAX
  {
    MigrationYields(pr, ByteFrames(), input, migrationDay);
    RefusedOnlyOnLastDay(pr, Migrate(pr, ByteFrames(), input, migrationDay).value, events, day);
  }

  /** The limit of three never refuses a rotation exactly when no day is the last one. */
  lemma LimitUnreachable(bound: u32)
    ensures NeverRefused(bound) <==> bound < U32_MAX
  {
    LimitReached();
    forall pr: Primitives, input: bytes, migrationDay: u32, events: seq<Event>, day: u32
      | Refused(pr, input, migrationDay, events, day, bound)
      ensures bound == U32_MAX
    {
      NotBefore(pr, input, migrationDay, events, day, bound);
    }
  }
}
