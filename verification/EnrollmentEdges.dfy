/** Where enrollment and migration part ways: packages on primitives that never fail, for every user id
    and every day. */
module EnrollmentEdges {
  import opened Bytes
  import opened Frames
  import opened PrekeyState
  import opened PrekeyMigration
  import opened PrekeyV1
  import opened PrekeyWitness
  import opened Enrollment

  lemma {:induction false} KeysAlways(draw: nat -> Result<(bytes, bytes)>, n: nat)
    requires n <= INITIAL_CLASSICAL && forall i: nat :: draw(i).Ok?
    ensures FirstKeys(draw, n).Ok?
  {
    if n > 0 {
      KeysAlways(draw, n - 1);
    }
  }

  /** Enrollment takes every user id. */
  lemma WillingPrepares(userId: Bytes16)
    ensures Prepare(Willing(), Plenty(), Ok(0), userId).Ok?
  {
    KeysAlways(ClassicalAfter(Willing(), Plenty()), INITIAL_CLASSICAL);
    KeysAlways(PqAfter(Plenty()), INITIAL_PQ);
  }

  function PackageOf(userId: Bytes16): bytes {
    match Prepare(Willing(), Plenty(), Ok(0), userId)
    case Ok(v) => PutV1(ByteFrames(), v, [])
    case Err(_) => []
  }

  lemma PreparedIds(pr: Primitives, s: Supply, registration: Result<u32>, userId: bytes)
    requires Prepare(pr, s, registration, userId).Ok?
    ensures Prepare(pr, s, registration, userId).value.head.classicalId == 1
    ensures Prepare(pr, s, registration, userId).value.head.pqId == 1
  {
  }

  /** A device as migration leaves it, its pair stamped a week back or on day 0. */
  predicate Fresh(d: Device, migrationDay: u32) {
    && d.pending.None? && d.retired == [] && d.bundleVersion == 1
    && d.currentClassical.id == 1 && d.currentPq.id == 1
    && d.currentClassical.createdDay == d.currentPq.createdDay == SaturatingSub(migrationDay, ROTATION_DAYS)
  }

  /** The package of every user id but the all-zero one migrates on every day. */
  lemma PackageMigratesExactly(userId: Bytes16, migrationDay: u32)
    ensures var r := Migrate(Willing(), ByteFrames(), PackageOf(userId), migrationDay);
      if AllZero(userId) then r == Err(MalformedInput) else r.Ok? && Fresh(r.value, migrationDay)
  {
    WillingIsCorrect();
    WillingPrepares(userId);
    PreparedIds(Willing(), Plenty(), Ok(0), userId);
    var v := Prepare(Willing(), Plenty(), Ok(0), userId).value;
    EnrolledMigrates(Willing(), Plenty(), Ok(0), userId, v, migrationDay);
  }

  /** Enrollment writes a package for the all-zero user id, and migration refuses it on every day. */
  lemma ZeroUserStranded(migrationDay: u32)
    ensures Prepare(Willing(), Plenty(), Ok(0), Zeros(16)).Ok?
    ensures Migrate(Willing(), ByteFrames(), PackageOf(Zeros(16)), migrationDay) == Err(MalformedInput)
  {
    WillingPrepares(Zeros(16));
    PackageMigratesExactly(Zeros(16), migrationDay);
  }

  function Ones(): Bytes16 {
    seq(16, _ => 1)
  }

  /** A package that migrates on every day; below day 7 its pair is not due for rotation then. */
  lemma EarlyIsNotDue(migrationDay: u32)
    ensures var r := Migrate(Willing(), ByteFrames(), PackageOf(Ones()), migrationDay);
      && r.Ok? && Fresh(r.value, migrationDay)
      && (RotationDue(r.value, migrationDay) <==> migrationDay >= ROTATION_DAYS)
  {
    assert Ones()[0] == 1;
    PackageMigratesExactly(Ones(), migrationDay);
  }
}
