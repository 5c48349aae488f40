/** Signed prekey rotation over every run: how many retired pairs a state holds, how long each is
    kept, and why a lookup by id is unambiguous. */
module PrekeyRotation {
  import opened Bytes
  import opened PrekeyState
  import opened PrekeyRuns

  // Ids

  predicate AscendingPairs(retired: seq<RetiredPair>, kind: SignedKind) {
    forall i, j :: 0 <= i < j < |retired| ==> Half(retired[i], kind).id < Half(retired[j], kind).id
  }

  /** Retired ids ascend strictly and stay below the current id. */
  predicate SignedOk(d: Device, kind: SignedKind) {
    && AscendingPairs(d.retired, kind)
    && forall pair :: pair in d.retired ==> Half(pair, kind).id < Current(d, kind).id
  }

  /** Pruning keeps exactly the pairs still in their window, in order. */
  lemma {:induction false} RetainedIs(retired: seq<RetiredPair>, day: u32)
    ensures forall pair :: pair in Retained(retired, day) <==> pair in retired && day <= pair.retainThrough
    ensures |Retained(retired, day)| <= |retired|
  {
    if retired != [] {
      RetainedIs(retired[1..], day);
      assert retired == [retired[0]] + retired[1..];
    }
  }

  lemma {:induction false} RetainedAscends(retired: seq<RetiredPair>, day: u32, kind: SignedKind)
    requires AscendingPairs(retired, kind)
    ensures AscendingPairs(Retained(retired, day), kind)
  {
    if retired != [] {
      var rest := Retained(retired[1..], day);
      RetainedAscends(retired[1..], day, kind);
      RetainedIs(retired[1..], day);
      forall pair | pair in rest
        ensures Half(retired[0], kind).id < Half(pair, kind).id
      {
        var i :| 0 <= i < |retired| - 1 && retired[1..][i] == pair;
      }
    }
  }

  /** What one operation can do to the signed keys. */
  datatype SignedMove = Same | Pruned(day: u32) | Rotated(day: u32, replacement: Replacement)

  function Moved(d: Device, m: SignedMove): Device {
    match m
    case Same => d
    case Pruned(day) => Prune(d, day)
    case Rotated(day, replacement) => Install(Prune(d, day), replacement, day)
  }

  /** Two states with the same signed keys. */
  predicate SameSigned(a: Device, b: Device) {
    a.currentClassical == b.currentClassical && a.currentPq == b.currentPq && a.retired == b.retired
  }

  function MoveOf(pr: Primitives, d: Device, e: Event): SignedMove {
    match e
    case Pruning(day) => Pruned(day)
    case Rotating(s, package, deviceId, day) =>
      if d.pending.Some? || !RotationDue(d, day) then Same
      else if |Prune(d, day).retired| >= MAX_RETIRED then Pruned(day)
      else
        var made := MakeReplacement(pr, s, Prune(d, day), package, deviceId, day);
        if made.Err? then Pruned(day) else Rotated(day, made.value)
    case _ => Same
  }

  /** Every operation, refused or not, leaves the signed keys alone, prunes them, or prunes and
      rotates when a rotation is due; the replacement takes the next ids and the day. */
  lemma MoveIs(pr: Primitives, d: Device, e: Event)
    ensures SameSigned(Next(pr, d, e), Moved(d, MoveOf(pr, d, e)))
    ensures MoveOf(pr, d, e).Rotated? ==>
      && RotationDue(d, MoveOf(pr, d, e).day)
      && var r := MoveOf(pr, d, e).replacement;
         && r.classical.id == d.currentClassical.id + 1 && r.pq.id == d.currentPq.id + 1
         && r.classical.createdDay == MoveOf(pr, d, e).day && r.pq.createdDay == MoveOf(pr, d, e).day
  {
  }

  lemma SignedNext(pr: Primitives, d: Device, e: Event, kind: SignedKind)
    requires SignedOk(d, kind)
    ensures SignedOk(Next(pr, d, e), kind)
  {
    MoveIs(pr, d, e);
    var m := MoveOf(pr, d, e);
    if m != Same {
      RetainedIs(d.retired, m.day);
      RetainedAscends(d.retired, m.day, kind);
    }
  }

  lemma {:induction false} SignedRun(pr: Primitives, d: Device, events: seq<Event>, kind: SignedKind)
    requires SignedOk(d, kind)
    ensures SignedOk(Run(pr, d, events), kind)
    decreases |events|
  {
    if events != [] {
      SignedNext(pr, d, events[0], kind);
      SignedRun(pr, Next(pr, d, events[0]), events[1..], kind);
    }
  }

  lemma {:induction false} FindRetiredIs(retired: seq<RetiredPair>, kind: SignedKind, id: u32)
    requires AscendingPairs(retired, kind)
    ensures FindRetired(retired, kind, id).Some? <==> exists pair :: pair in retired && Half(pair, kind).id == id
    ensures forall pair :: pair in retired && Half(pair, kind).id == id ==>
      FindRetired(retired, kind, id) == Some(Half(pair, kind))
  {
    if retired != [] {
      FindRetiredIs(retired[1..], kind, id);
      assert retired == [retired[0]] + retired[1..];
    }
  }

  /** After any run, every signed key held is found by its id, and an id finds nothing else. */
  lemma LookupUnambiguous(pr: Primitives, d: Device, events: seq<Event>, kind: SignedKind, id: u32)
    requires Migrated(d)
    ensures var after := Run(pr, d, events);
      && (Current(after, kind).id == id ==>
            Lookup(after, kind, id) == Some(Current(after, kind))
              && forall pair :: pair in after.retired ==> Half(pair, kind).id != id)
      && (forall pair :: pair in after.retired && Half(pair, kind).id == id ==>
          Lookup(after, kind, id) == Some(Half(pair, kind)))
      && (Lookup(after, kind, id).Some? <==>
            Current(after, kind).id == id || exists pair :: pair in after.retired && Half(pair, kind).id == id)
  {
    SignedRun(pr, d, events, kind);
    FindRetiredIs(Run(pr, d, events).retired, kind, id);
  }

  // Windows

  /** At most two pairs, and the older of two leaves its window before the next rotation is due. */
  predicate Windows(d: Device) {
    var created := d.currentClassical.createdDay;
    && |d.retired| <= 2
    && (d.retired != [] ==> d.retired[|d.retired| - 1].retainThrough <= created + RETENTION_DAYS)
    && (|d.retired| == 2 ==> d.retired[0].retainThrough <= created + 1)
  }

  /** The invariant of every run: the windows hold, or a rotation happened on the last day of all. */
  predicate WindowsOk(d: Device) {
    && d.currentClassical.createdDay == d.currentPq.createdDay
    && (Windows(d) || d.currentClassical.createdDay == U32_MAX)
  }

  lemma PruneKeepsWindows(d: Device, day: u32)
    requires Windows(d)
    ensures Windows(Prune(d, day))
    ensures RotationDue(d, day) && day < U32_MAX ==> |Prune(d, day).retired| <= 1
  {
    if |d.retired| == 1 {
      RetainedOne(d.retired, day);
    } else if |d.retired| == 2 {
      RetainedOne(d.retired[1..], day);
    }
  }

  lemma RetainedOne(retired: seq<RetiredPair>, day: u32)
    requires |retired| == 1
    ensures Retained(retired, day) == if day <= retired[0].retainThrough then retired else []
  {
    assert retired[1..] == [] && retired == [retired[0]];
  }

  lemma WindowsNext(pr: Primitives, d: Device, e: Event)
    requires WindowsOk(d)
    ensures WindowsOk(Next(pr, d, e))
  {
    MoveIs(pr, d, e);
    var m := MoveOf(pr, d, e);
    if m != Same && Windows(d) {
      PruneKeepsWindows(d, m.day);
    }
  }

  lemma {:induction false} WindowsRun(pr: Primitives, d: Device, events: seq<Event>)
    requires WindowsOk(d)
    ensures WindowsOk(Run(pr, d, events))
    decreases |events|
  {
    if events != [] {
      WindowsNext(pr, d, events[0]);
      WindowsRun(pr, Next(pr, d, events[0]), events[1..]);
    }
  }

  /** Whether an attempt to rotate is refused because three retired pairs are still kept. */
  predicate LimitRefuses(d: Device, day: u32) {
    d.pending.None? && RotationDue(d, day) && |Prune(d, day).retired| >= MAX_RETIRED
  }

  lemma LimitRefusesIs(pr: Primitives, s: Supply, d: Device, package: bytes, deviceId: bytes, day: u32)
    requires LimitRefuses(d, day)
    ensures Rotate(pr, s, d, package, deviceId, day).result == Err(ResourceExhausted)
  {
  }

  /** From a migrated state, whatever ran, the limit of three refuses a rotation only on the last
      day a 32-bit day can name, where the added days saturate. */
  lemma RefusedOnlyOnLastDay(pr: Primitives, d: Device, events: seq<Event>, day: u32)
    requires Migrated(d) && LimitRefuses(Run(pr, d, events), day)
    ensures day == U32_MAX
  {
    WindowsRun(pr, d, events);
    var after := Run(pr, d, events);
    if Windows(after) {
      PruneKeepsWindows(after, day);
    }
  }

  predicate DaysUpTo(events: seq<Event>, bound: nat) {
    forall i :: 0 <= i < |events| ==>
      (events[i].Rotating? ==> events[i].day <= bound) && (events[i].Pruning? ==> events[i].pruneDay <= bound)
  }

  lemma {:induction false} CreatedBound(pr: Primitives, d: Device, events: seq<Event>, bound: nat)
    requires d.currentClassical.createdDay <= bound && DaysUpTo(events, bound)
    ensures Run(pr, d, events).currentClassical.createdDay <= bound
    decreases |events|
  {
    if events != [] {
      MoveIs(pr, d, events[0]);
      CreatedBound(pr, Next(pr, d, events[0]), events[1..], bound);
    }
  }

  /** At most two retired pairs are ever held while days stay below the last one. */
  lemma AtMostTwoRetired(pr: Primitives, d: Device, events: seq<Event>)
    requires Migrated(d) && DaysUpTo(events, U32_MAX - 1)
    ensures |Run(pr, d, events).retired| <= 2
  {
    WindowsRun(pr, d, events);
    CreatedBound(pr, d, events, U32_MAX - 1);
  }

  // How long a pair is kept

  lemma {:induction false} SurvivesWindow(pr: Primitives, d: Device, events: seq<Event>, pair: RetiredPair)
    requires pair in d.retired && DaysUpTo(events, pair.retainThrough)
    ensures pair in Run(pr, d, events).retired
    decreases |events|
  {
    if events != [] {
      MoveIs(pr, d, events[0]);
      var m := MoveOf(pr, d, events[0]);
      if m != Same {
        RetainedIs(d.retired, m.day);
      }
      SurvivesWindow(pr, Next(pr, d, events[0]), events[1..], pair);
    }
  }

  /** An id that was passed by and is no longer held is never held again. */
  lemma {:induction false} NeverReturns(pr: Primitives, d: Device, events: seq<Event>, kind: SignedKind, id: u32)
    requires id < Current(d, kind).id && (forall pair :: pair in d.retired ==> Half(pair, kind).id != id)
    ensures var after := Run(pr, d, events);
      id < Current(after, kind).id && forall pair :: pair in after.retired ==> Half(pair, kind).id != id
    decreases |events|
  {
    if events != [] {
      MoveIs(pr, d, events[0]);
      var m := MoveOf(pr, d, events[0]);
      if m != Same {
        RetainedIs(d.retired, m.day);
      }
      NeverReturns(pr, Next(pr, d, events[0]), events[1..], kind, id);
    }
  }

  /** A pair retired on day D stays through every operation dated up to D + 8, is found by its id all
      that time, goes at the first prune dated later, and is never found again. */
  lemma RetiredWindow(pr: Primitives, start: Device, before: seq<Event>, rotation: Event,
                      during: seq<Event>, day: u32, after: seq<Event>, kind: SignedKind)
    requires Migrated(start) && MoveOf(pr, Run(pr, start, before), rotation).Rotated?
    requires rotation.day <= U32_MAX - RETENTION_DAYS
    requires DaysUpTo(during, rotation.day + RETENTION_DAYS) && day > rotation.day + RETENTION_DAYS
    ensures var d := Run(pr, start, before);
      var pair := RetiredPair(rotation.day + RETENTION_DAYS, d.currentClassical, d.currentPq);
      var kept := Run(pr, Next(pr, d, rotation), during);
      && pair in kept.retired && Lookup(kept, kind, Half(pair, kind).id) == Some(Half(pair, kind))
      && Lookup(Run(pr, Prune(kept, day), after), kind, Half(pair, kind).id) == None
  {
    var d := Run(pr, start, before);
    var pair := RetiredPair(rotation.day + RETENTION_DAYS, d.currentClassical, d.currentPq);
    var d1 := Next(pr, d, rotation);
    var kept := Run(pr, d1, during);
    SignedRun(pr, start, before, kind);
    SignedNext(pr, d, rotation, kind);
    MoveIs(pr, d, rotation);
    SurvivesWindow(pr, d1, during, pair);
    SignedRun(pr, d1, during, kind);
    FindRetiredIs(kept.retired, kind, Half(pair, kind).id);
    PrunedAway(kept, day, pair, kind);
    NeverReturns(pr, Prune(kept, day), after, kind, Half(pair, kind).id);
    NotFound(Run(pr, Prune(kept, day), after), kind, Half(pair, kind).id);
  }

  lemma PrunedAway(d: Device, day: u32, pair: RetiredPair, kind: SignedKind)
    requires SignedOk(d, kind) && pair in d.retired && day > pair.retainThrough
    ensures forall other :: other in Prune(d, day).retired ==> Half(other, kind).id != Half(pair, kind).id
  {
    RetainedIs(d.retired, day);
    forall other | other in Prune(d, day).retired
      ensures Half(other, kind).id != Half(pair, kind).id
    {
      var i :| 0 <= i < |d.retired| && d.retired[i] == pair;
      var j :| 0 <= j < |d.retired| && d.retired[j] == other;
    }
  }

  lemma {:induction false} NotFoundRetired(retired: seq<RetiredPair>, kind: SignedKind, id: u32)
    requires forall pair :: pair in retired ==> Half(pair, kind).id != id
    ensures FindRetired(retired, kind, id) == None
  {
    if retired != [] {
      NotFoundRetired(retired[1..], kind, id);
    }
  }

  lemma NotFound(d: Device, kind: SignedKind, id: u32)
    requires id != Current(d, kind).id && forall pair :: pair in d.retired ==> Half(pair, kind).id != id
    ensures Lookup(d, kind, id) == None
  {
    NotFoundRetired(d.retired, kind, id);
  }
}
