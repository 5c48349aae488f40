/** A send that meets no other is one step: its locks, size reads, stamps and commit, run one after the
    other, leave the store the batch was meant to leave, whole (`send` of messaging/services.py). */
module MailboxAlone {
  import opened MailboxSend
  import opened Mailbox
  import opened MailboxSafety

  // What the batch is meant to leave

  /** Rows with the next numbers, the given sizes in order, and one day. */
  function NextRows(base: nat, sizes: seq<nat>, day: int): seq<Row> {
    seq(|sizes|, i requires 0 <= i < |sizes| => Row(base + i + 1, sizes[i], day))
  }

  /** One mailbox after the batch. A device that is not live, or that the whole of its part would not
      fit, is untouched. */
  function DeliverBox(cfg: Config, b: Box, d: nat, batch: seq<Message>, day: int): Box {
    var rows := NextRows(b.queueSeq, Sizes(batch, d), day);
    if !Live(b) || Total(b.rows) + Incoming(batch, d) > cfg.limit then b
    else b.(queueSeq := b.queueSeq + |rows|, rows := b.rows + rows, days := b.days + Days(rows))
  }

  function Deliver(cfg: Config, w: World, batch: seq<Message>): World {
    w.(boxes := map d | d in w.boxes :: DeliverBox(cfg, w.boxes[d], d, batch, w.clock))
  }

  // The steps of the send

  function Repeat(e: Event, n: nat): seq<Event> {
    if n == 0 then [] else [e] + Repeat(e, n - 1)
  }

  lemma RunFirst(cfg: Config, w: World, e: Event, rest: seq<Event>)
    ensures Run(cfg, w, [e] + rest) == Run(cfg, Next(cfg, w, e), rest)
  {
    assert ([e] + rest)[1..] == rest;
  }

  /** A step repeated goes through the worlds it leads to, one by one. */
  lemma {:induction false} RunRepeat(cfg: Config, worlds: seq<World>, e: Event)
    requires worlds != [] && forall i :: 0 <= i < |worlds| - 1 ==> Next(cfg, worlds[i], e) == worlds[i + 1]
    ensures Run(cfg, worlds[0], Repeat(e, |worlds| - 1)) == worlds[|worlds| - 1]
    decreases |worlds|
  {
    if |worlds| > 1 {
      RunFirst(cfg, worlds[0], e, Repeat(e, |worlds| - 2));
      RunRepeat(cfg, worlds[1..], e);
    }
  }

  /** Every live device the batch names can be locked. */
  predicate Unlocked(w: World, batch: seq<Message>) {
    forall d :: d in Wanted(batch) && d in w.boxes && Live(w.boxes[d]) ==> w.boxes[d].hold.Free?
  }

  predicate Unheld(w: World, send: nat) {
    forall d :: d in w.boxes ==> !HeldBy(w.boxes[d].hold, send)
  }

  lemma NewSendHoldsNothing(cfg: Config, w: World, send: nat)
    requires WorldOk(cfg, w) && send !in w.sends
    ensures Unheld(w, send)
  {
    forall d | d in w.boxes
      ensures !HeldBy(w.boxes[d].hold, send)
    {
      assert Backed(cfg, w.sends, d, w.boxes[d]);
    }
  }

  // Locking

  function LockedBox(b: Box, d: nat, ids: seq<nat>, send: nat): Box {
    if d in ids && Live(b) then b.(hold := Locked(send)) else b
  }

  /** The store when the first `k` of the wanted devices have been asked for. */
  function AfterLocks(w: World, send: nat, batch: seq<Message>, k: nat): World
    requires k <= |Wanted(batch)|
  {
    w.(sends := w.sends[send := Send(batch, Wanted(batch), Locking(k))],
       boxes := map d | d in w.boxes :: LockedBox(w.boxes[d], d, Wanted(batch)[..k], send))
  }

  /** The next wanted device has not been asked for yet. */
  lemma NextWanted(batch: seq<Message>, k: nat)
    requires k < |Wanted(batch)|
    ensures Wanted(batch)[k] !in Wanted(batch)[..k]
    ensures Wanted(batch)[..k + 1] == Wanted(batch)[..k] + [Wanted(batch)[k]]
  {
    WantedIs(batch);
  }

  lemma LockedMore(boxes: map<nat, Box>, ids: seq<nat>, device: nat, send: nat)
    requires device !in ids
    ensures var before, after := map d | d in boxes :: LockedBox(boxes[d], d, ids, send),
                                 map d | d in boxes :: LockedBox(boxes[d], d, ids + [device], send);
      after == if device in boxes && Live(boxes[device])
               then before[device := boxes[device].(hold := Locked(send))] else before
  {
  }

  lemma LockTo(cfg: Config, v: World, send: nat, device: nat, v': World)
    requires send in v.sends && v.sends[send].phase.Locking? && v.sends[send].phase.at < |v.sends[send].wanted|
    requires v.sends[send].wanted[v.sends[send].phase.at] == device
    requires device in v.boxes && Live(v.boxes[device]) ==> v.boxes[device].hold.Free?
    requires v' == v.(sends := v.sends[send := v.sends[send].(phase := Locking(v.sends[send].phase.at + 1))],
                      boxes := v'.boxes)
    requires v'.boxes == if device in v.boxes && Live(v.boxes[device])
                         then v.boxes[device := v.boxes[device].(hold := Locked(send))] else v.boxes
    ensures Next(cfg, v, Lock(send)) == v'
  {
  }

  lemma LockStep(cfg: Config, w: World, send: nat, batch: seq<Message>, k: nat)
    requires Unlocked(w, batch) && k < |Wanted(batch)|
    ensures Next(cfg, AfterLocks(w, send, batch, k), Lock(send)) == AfterLocks(w, send, batch, k + 1)
  {
    NextWanted(batch, k);
    var device, v, v' := Wanted(batch)[k], AfterLocks(w, send, batch, k), AfterLocks(w, send, batch, k + 1);
    LockedMore(w.boxes, Wanted(batch)[..k], device, send);
    assert v'.sends == v.sends[send := v.sends[send].(phase := Locking(k + 1))];
    LockTo(cfg, v, send, device, v');
  }

  lemma RunLocks(cfg: Config, w: World, send: nat, batch: seq<Message>, n: nat)
    requires Unlocked(w, batch) && n <= |Wanted(batch)|
    ensures Run(cfg, AfterLocks(w, send, batch, 0), Repeat(Lock(send), n)) == AfterLocks(w, send, batch, n)
  {
    var worlds: seq<World> := seq(n + 1, i requires 0 <= i <= n => AfterLocks(w, send, batch, i));
    forall i | 0 <= i < n
      ensures Next(cfg, worlds[i], Lock(send)) == worlds[i + 1]
    {
      LockStep(cfg, w, send, batch, i);
    }
    RunRepeat(cfg, worlds, Lock(send));
  }

  // Reading sizes and stamping

  function StampedBox(cfg: Config, b: Box, d: nat, batch: seq<Message>, send: nat, k: nat, day: int): Box
    requires k <= |batch|
  {
    if d !in Wanted(batch) || !Live(b) then b
    else if Total(b.rows) + Incoming(batch, d) > cfg.limit then b.(hold := Full(send))
    else b.(hold := Open(send, Total(b.rows), NextRows(b.queueSeq, Sizes(batch[..k], d), day)))
  }

  /** The store when the sizes have been read and the first `k` messages stamped. */
  function AfterStamps(cfg: Config, w: World, send: nat, batch: seq<Message>, k: nat): World
    requires k <= |batch|
  {
    w.(sends := w.sends[send := Send(batch, Wanted(batch), Stamping(k))],
       boxes := map d | d in w.boxes :: StampedBox(cfg, w.boxes[d], d, batch, send, k, w.clock))
  }

  lemma SizeStep(cfg: Config, w: World, send: nat, batch: seq<Message>)
    requires Unheld(w, send)
    ensures Next(cfg, AfterLocks(w, send, batch, |Wanted(batch)|), Size(send)) == AfterStamps(cfg, w, send, batch, 0)
  {
    var wanted := Wanted(batch);
    var v, v' := AfterLocks(w, send, batch, |wanted|), AfterStamps(cfg, w, send, batch, 0);
    assert wanted[..|wanted|] == wanted && batch[..0] == [];
    var after := Next(cfg, v, Size(send));
    assert after.sends == v'.sends;
    forall d | d in w.boxes
      ensures after.boxes[d] == v'.boxes[d]
    {
      SizedBoxIs(cfg, w.boxes[d], d, batch, send, w.clock);
    }
    assert after.boxes == v'.boxes;
  }

  lemma SizedBoxIs(cfg: Config, b: Box, d: nat, batch: seq<Message>, send: nat, day: int)
    requires !HeldBy(b.hold, send)
    ensures SizeBox(cfg, LockedBox(b, d, Wanted(batch), send), send, batch, d)
      == StampedBox(cfg, b, d, batch, send, 0, day)
  {
    assert batch[..0] == [];
    assert NextRows(b.queueSeq, Sizes(batch[..0], d), day) == [];
  }

  lemma NextRowsAppend(base: nat, sizes: seq<nat>, size: nat, day: int)
    ensures NextRows(base, sizes + [size], day) == NextRows(base, sizes, day) + [Row(base + |sizes| + 1, size, day)]
  {
  }

  lemma StampedBoxIs(cfg: Config, b: Box, d: nat, batch: seq<Message>, send: nat, k: nat, day: int)
    requires !HeldBy(b.hold, send) && k < |batch|
    ensures StampedBox(cfg, b, d, batch, send, k + 1, day)
      == if batch[k].device == d then StampBox(StampedBox(cfg, b, d, batch, send, k, day), send, batch[k].size, day)
         else StampedBox(cfg, b, d, batch, send, k, day)
  {
    assert batch[..k + 1] == batch[..k] + [batch[k]];
    SizesAppend(batch[..k], batch[k], d);
    NextRowsAppend(b.queueSeq, Sizes(batch[..k], d), batch[k].size, day);
  }

  lemma StampStep(cfg: Config, w: World, send: nat, batch: seq<Message>, k: nat)
    requires Unheld(w, send) && k < |batch|
    ensures Next(cfg, AfterStamps(cfg, w, send, batch, k), StampNext(send)) == AfterStamps(cfg, w, send, batch, k + 1)
  {
    var v, v' := AfterStamps(cfg, w, send, batch, k), AfterStamps(cfg, w, send, batch, k + 1);
    var after := Next(cfg, v, StampNext(send));
    assert after.sends == v'.sends;
    forall d | d in w.boxes
      ensures after.boxes[d] == v'.boxes[d]
    {
      StampedBoxIs(cfg, w.boxes[d], d, batch, send, k, w.clock);
    }
    assert after.boxes == v'.boxes;
  }

  lemma RunStamps(cfg: Config, w: World, send: nat, batch: seq<Message>, n: nat)
    requires Unheld(w, send) && n <= |batch|
    ensures Run(cfg, AfterStamps(cfg, w, send, batch, 0), Repeat(StampNext(send), n))
      == AfterStamps(cfg, w, send, batch, n)
  {
    var worlds: seq<World> := seq(n + 1, i requires 0 <= i <= n => AfterStamps(cfg, w, send, batch, i));
    forall i | 0 <= i < n
      ensures Next(cfg, worlds[i], StampNext(send)) == worlds[i + 1]
    {
      StampStep(cfg, w, send, batch, i);
    }
    RunRepeat(cfg, worlds, StampNext(send));
  }

  // Committing

  lemma {:induction false} NamedIsWanted(batch: seq<Message>, d: nat)
    ensures Sizes(batch, d) != [] ==> d in Wanted(batch)
  {
    WantedIs(batch);
    if batch != [] {
      var front, last := batch[..|batch| - 1], batch[|batch| - 1];
      NamedIsWanted(front, d);
      WantedIs(front);
      assert batch == front + [last];
    }
  }

  lemma NothingDelivered(cfg: Config, b: Box, d: nat, batch: seq<Message>, day: int)
    requires Sizes(batch, d) == []
    ensures DeliverBox(cfg, b, d, batch, day) == b
  {
    assert NextRows(b.queueSeq, [], day) == [];
    assert b.rows + [] == b.rows && b.days + Days([]) == b.days;
  }

  lemma CommittedBoxIs(cfg: Config, b: Box, d: nat, batch: seq<Message>, send: nat, day: int)
    requires !HeldBy(b.hold, send) && (d in Wanted(batch) && Live(b) ==> b.hold.Free?)
    ensures CommitBox(StampedBox(cfg, b, d, batch, send, |batch|, day), send) == DeliverBox(cfg, b, d, batch, day)
  {
    if d in Wanted(batch) {
      assert batch[..|batch|] == batch;
    } else {
      NamedIsWanted(batch, d);
      NothingDelivered(cfg, b, d, batch, day);
    }
  }

  lemma CommitStep(cfg: Config, w: World, send: nat, batch: seq<Message>)
    requires Unheld(w, send) && Unlocked(w, batch) && send !in w.sends
    ensures Next(cfg, AfterStamps(cfg, w, send, batch, |batch|), Commit(send)) == Deliver(cfg, w, batch)
  {
    var v, v' := AfterStamps(cfg, w, send, batch, |batch|), Deliver(cfg, w, batch);
    var after := Next(cfg, v, Commit(send));
    assert after.sends == w.sends;
    forall d | d in w.boxes
      ensures after.boxes[d] == v'.boxes[d]
    {
      CommittedBoxIs(cfg, w.boxes[d], d, batch, send, w.clock);
    }
    assert after.boxes == v'.boxes;
  }

  // The whole send

  lemma BeginStep(cfg: Config, w: World, send: nat, batch: seq<Message>)
    requires send !in w.sends
    ensures Next(cfg, w, Begin(send, batch)) == AfterLocks(w, send, batch, 0)
  {
    assert (map d | d in w.boxes :: LockedBox(w.boxes[d], d, Wanted(batch)[..0], send)) == w.boxes;
  }

  lemma RunOne(cfg: Config, w: World, e: Event)
    ensures Run(cfg, w, [e]) == Next(cfg, w, e)
  {
    assert Run(cfg, w, [e]) == Run(cfg, Next(cfg, w, e), []);
  }

  /** A send that has begun and asked for its first `k` devices. */
  function FirstSteps(send: nat, batch: seq<Message>, k: nat): seq<Event> {
    [Begin(send, batch)] + Repeat(Lock(send), k)
  }

  lemma AtLocks(cfg: Config, w: World, send: nat, batch: seq<Message>, k: nat)
    requires send !in w.sends && Unlocked(w, batch) && k <= |Wanted(batch)|
    ensures Run(cfg, w, FirstSteps(send, batch, k)) == AfterLocks(w, send, batch, k)
  {
    BeginStep(cfg, w, send, batch);
    RunFirst(cfg, w, Begin(send, batch), Repeat(Lock(send), k));
    RunLocks(cfg, w, send, batch, k);
  }

  /** A send that has its devices, has read their sizes and stamped its first `k` messages. */
  function MoreSteps(send: nat, batch: seq<Message>, k: nat): seq<Event> {
    FirstSteps(send, batch, |Wanted(batch)|) + ([Size(send)] + Repeat(StampNext(send), k))
  }

  lemma AtStamps(cfg: Config, w: World, send: nat, batch: seq<Message>, k: nat)
    requires send !in w.sends && Unlocked(w, batch) && Unheld(w, send) && k <= |batch|
    ensures Run(cfg, w, MoreSteps(send, batch, k)) == AfterStamps(cfg, w, send, batch, k)
  {
    var first, stamps := FirstSteps(send, batch, |Wanted(batch)|), Repeat(StampNext(send), k);
    AtLocks(cfg, w, send, batch, |Wanted(batch)|);
    RunAppend(cfg, w, first, [Size(send)] + stamps);
    RunFirst(cfg, Run(cfg, w, first), Size(send), stamps);
    SizeStep(cfg, w, send, batch);
    RunStamps(cfg, w, send, batch, k);
  }

  /** The whole of a send. */
  function Steps(send: nat, batch: seq<Message>): seq<Event> {
    MoreSteps(send, batch, |batch|) + [Commit(send)]
  }

  /** From any store the system can be in, when no live device the batch names is locked, running a send
      through leaves exactly the store with the batch delivered: every live device with room for its
      whole part has its messages behind what it held, in batch order, under the next numbers and
      today's date; every other mailbox, and everything else, is as it was. */
  lemma SendAlone(cfg: Config, w: World, send: nat, batch: seq<Message>)
    requires WorldOk(cfg, w) && send !in w.sends && Unlocked(w, batch)
    ensures Run(cfg, w, Steps(send, batch)) == Deliver(cfg, w, batch)
  {
    NewSendHoldsNothing(cfg, w, send);
    AtStamps(cfg, w, send, batch, |batch|);
    CommitStep(cfg, w, send, batch);
    RunOne(cfg, AfterStamps(cfg, w, send, batch, |batch|), Commit(send));
    RunAppend(cfg, w, MoreSteps(send, batch, |batch|), [Commit(send)]);
  }

  lemma ReleasedBoxIs(cfg: Config, b: Box, d: nat, batch: seq<Message>, send: nat, ids: seq<nat>, k: nat, day: int)
    requires !HeldBy(b.hold, send) && (d in Wanted(batch) && Live(b) ==> b.hold.Free?)
    requires k <= |batch| && (d in ids ==> d in Wanted(batch))
    ensures ReleaseBox(LockedBox(b, d, ids, send), send) == b
    ensures ReleaseBox(StampedBox(cfg, b, d, batch, send, k, day), send) == b
  {
  }

  /** Given up at any point before its commit, a send leaves the store exactly as it found it. */
  lemma AbortUndoes(cfg: Config, w: World, send: nat, batch: seq<Message>, k: nat, begun: seq<Event>)
    requires WorldOk(cfg, w) && send !in w.sends && Unlocked(w, batch)
    requires (k <= |Wanted(batch)| && begun == FirstSteps(send, batch, k))
             || (k <= |batch| && begun == MoreSteps(send, batch, k))
    ensures Next(cfg, Run(cfg, w, begun), Abort(send)) == w
  {
    NewSendHoldsNothing(cfg, w, send);
    if k <= |Wanted(batch)| && begun == FirstSteps(send, batch, k) {
      AtLocks(cfg, w, send, batch, k);
      AbortLocks(cfg, w, send, batch, k);
    } else {
      AtStamps(cfg, w, send, batch, k);
      AbortStamps(cfg, w, send, batch, k);
    }
  }

  lemma AbortLocks(cfg: Config, w: World, send: nat, batch: seq<Message>, k: nat)
    requires send !in w.sends && Unlocked(w, batch) && Unheld(w, send) && k <= |Wanted(batch)|
    ensures Next(cfg, AfterLocks(w, send, batch, k), Abort(send)) == w
  {
    var after := Next(cfg, AfterLocks(w, send, batch, k), Abort(send));
    assert after.sends == w.sends;
    forall d | d in w.boxes
      ensures after.boxes[d] == w.boxes[d]
    {
      ReleasedBoxIs(cfg, w.boxes[d], d, batch, send, Wanted(batch)[..k], 0, w.clock);
    }
    assert after.boxes == w.boxes;
  }

  lemma AbortStamps(cfg: Config, w: World, send: nat, batch: seq<Message>, k: nat)
    requires send !in w.sends && Unlocked(w, batch) && Unheld(w, send) && k <= |batch|
    ensures Next(cfg, AfterStamps(cfg, w, send, batch, k), Abort(send)) == w
  {
    var after := Next(cfg, AfterStamps(cfg, w, send, batch, k), Abort(send));
    assert after.sends == w.sends;
    forall d | d in w.boxes
      ensures after.boxes[d] == w.boxes[d]
    {
      ReleasedBoxIs(cfg, w.boxes[d], d, batch, send, [], k, w.clock);
    }
    assert after.boxes == w.boxes;
  }
}
