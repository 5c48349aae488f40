/** A send among other traffic is the plan made for it: the separate steps of the transition system
    hand out what the loops of `send` compute from the state its locks froze. */
module MailboxPlan {
  import opened MailboxSend
  import opened Mailbox
  import opened MailboxSafety
  import opened MailboxTheorems

  /** The counters of the devices a send holds. */
  function Targets(w: World, send: nat): map<nat, nat> {
    map d | d in w.boxes && HeldBy(w.boxes[d].hold, send) :: w.boxes[d].queueSeq
  }

  /** The bytes queued for them. */
  function QueuedBytes(w: World, send: nat): map<nat, nat> {
    map d | d in w.boxes && HeldBy(w.boxes[d].hold, send) :: Total(w.boxes[d].rows)
  }

  function FullOf(w: World, send: nat): set<nat> {
    set d | d in w.boxes && w.boxes[d].hold == Full(send)
  }

  // Reading the sizes decides as the plan does

  lemma SizeBoxAsPlanned(cfg: Config, w: World, send: nat, device: nat)
    requires WorldOk(cfg, w) && Enabled(w, Size(send)) && device in w.boxes
    ensures var b, b' := w.boxes[device], Next(cfg, w, Size(send)).boxes[device];
      && (HeldBy(b'.hold, send) <==> HeldBy(b.hold, send)) && b'.queueSeq == b.queueSeq
      && (b'.hold == Full(send)
          <==> Overfull(w.sends[send].batch, Targets(w, send), QueuedBytes(w, send), cfg.limit, device))
  {
    var b := w.boxes[device];
    assert Backed(cfg, w.sends, device, b) && BoxOk(cfg, b, w.clock, w.cutoff);
    assert Incoming(w.sends[send].batch, device) > 0 ==> Sizes(w.sends[send].batch, device) != [];
  }

  lemma SizesAsPlanned(cfg: Config, w: World, send: nat)
    requires WorldOk(cfg, w) && Enabled(w, Size(send))
    ensures var w' := Next(cfg, w, Size(send));
      && Targets(w', send) == Targets(w, send)
      && forall d :: d in FullOf(w', send) <==>
           Overfull(w.sends[send].batch, Targets(w, send), QueuedBytes(w, send), cfg.limit, d)
  {
    var w' := Next(cfg, w, Size(send));
    assert w'.boxes.Keys == w.boxes.Keys;
    forall d | d in w.boxes
      ensures HeldBy(w'.boxes[d].hold, send) <==> HeldBy(w.boxes[d].hold, send)
      ensures w'.boxes[d].queueSeq == w.boxes[d].queueSeq
      ensures d in FullOf(w', send)
          <==> Overfull(w.sends[send].batch, Targets(w, send), QueuedBytes(w, send), cfg.limit, d)
    {
      SizeBoxAsPlanned(cfg, w, send, d);
    }
  }

  // Nothing else moves what the locks hold

  predicate Midway(w: World, send: nat, batch: seq<Message>) {
    send in w.sends && w.sends[send].phase.Stamping? && w.sends[send].batch == batch
  }

  predicate NotEnded(events: seq<Event>, send: nat) {
    Commit(send) !in events && Abort(send) !in events
  }

  /** A device is held by the send before and after or neither; held, it keeps its counter and fate. */
  predicate SameHold(b: Box, b': Box, send: nat) {
    && (HeldBy(b'.hold, send) <==> HeldBy(b.hold, send))
    && (HeldBy(b.hold, send) ==> b'.queueSeq == b.queueSeq && (b'.hold.Full? <==> b.hold.Full?))
  }

  /** A step of a send, this one or another. */
  predicate OfSend(e: Event) {
    e.Lock? || e.Size? || e.StampNext? || e.Commit? || e.Abort?
  }

  lemma SendStepHold(cfg: Config, w: World, e: Event, send: nat, device: nat)
    requires device in w.boxes && Backed(cfg, w.sends, device, w.boxes[device])
    requires send in w.sends && w.sends[send].phase.Stamping? && OfSend(e) && e.send != send
    ensures device in Next(cfg, w, e).boxes && SameHold(w.boxes[device], Next(cfg, w, e).boxes[device], send)
  {
  }

  lemma OwnStepHold(cfg: Config, w: World, e: Event, send: nat, device: nat)
    requires device in w.boxes && Backed(cfg, w.sends, device, w.boxes[device])
    requires send in w.sends && w.sends[send].phase.Stamping?
    requires e == Lock(send) || e == Size(send) || e == StampNext(send)
    ensures device in Next(cfg, w, e).boxes && SameHold(w.boxes[device], Next(cfg, w, e).boxes[device], send)
  {
  }

  lemma OtherStepHold(cfg: Config, w: World, e: Event, send: nat, device: nat)
    requires device in w.boxes && !OfSend(e)
    ensures device in Next(cfg, w, e).boxes && SameHold(w.boxes[device], Next(cfg, w, e).boxes[device], send)
  {
  }

  /** What one event leaves of a held device. */
  lemma HeldBoxStays(cfg: Config, w: World, e: Event, send: nat, device: nat)
    requires WorldOk(cfg, w) && send in w.sends && w.sends[send].phase.Stamping?
    requires e != Commit(send) && e != Abort(send) && device in w.boxes
    ensures device in Next(cfg, w, e).boxes && SameHold(w.boxes[device], Next(cfg, w, e).boxes[device], send)
  {
    assert Backed(cfg, w.sends, device, w.boxes[device]);
    if !OfSend(e) {
      OtherStepHold(cfg, w, e, send, device);
    } else if e.send == send {
      OwnStepHold(cfg, w, e, send, device);
    } else {
      SendStepHold(cfg, w, e, send, device);
    }
  }

  lemma NewBoxIsFree(cfg: Config, w: World, e: Event, send: nat, device: nat)
    requires device !in w.boxes && device in Next(cfg, w, e).boxes
    ensures Next(cfg, w, e).boxes[device].hold.Free?
  {
  }

  lemma EventStays(cfg: Config, w: World, e: Event, send: nat, batch: seq<Message>)
    requires WorldOk(cfg, w) && Midway(w, send, batch) && e != Commit(send) && e != Abort(send)
    ensures Midway(Next(cfg, w, e), send, batch)
    ensures Targets(Next(cfg, w, e), send) == Targets(w, send) && FullOf(Next(cfg, w, e), send) == FullOf(w, send)
  {
    var w' := Next(cfg, w, e);
    forall d | d in w.boxes
      ensures d in w'.boxes && SameHold(w.boxes[d], w'.boxes[d], send)
    {
      HeldBoxStays(cfg, w, e, send, d);
    }
    forall d | d in w'.boxes && d !in w.boxes
      ensures w'.boxes[d].hold.Free?
    {
      NewBoxIsFree(cfg, w, e, send, d);
    }
    SameHeld(w, w', send);
    SendStays(cfg, w, e, send, batch);
  }

  lemma SameHeld(w: World, w': World, send: nat)
    requires forall d :: d in w.boxes ==> d in w'.boxes && SameHold(w.boxes[d], w'.boxes[d], send)
    requires forall d :: d in w'.boxes && d !in w.boxes ==> w'.boxes[d].hold.Free?
    ensures Targets(w', send) == Targets(w, send) && FullOf(w', send) == FullOf(w, send)
  {
  }

  lemma SendStays(cfg: Config, w: World, e: Event, send: nat, batch: seq<Message>)
    requires Midway(w, send, batch) && e != Commit(send) && e != Abort(send)
    ensures Midway(Next(cfg, w, e), send, batch)
  {
  }

  lemma {:induction false} RunStays(cfg: Config, w: World, events: seq<Event>, send: nat, batch: seq<Message>)
    requires WorldOk(cfg, w) && Midway(w, send, batch) && NotEnded(events, send)
    ensures WorldOk(cfg, Run(cfg, w, events)) && Midway(Run(cfg, w, events), send, batch)
    ensures Targets(Run(cfg, w, events), send) == Targets(w, send)
    ensures FullOf(Run(cfg, w, events), send) == FullOf(w, send)
    decreases |events|
  {
    if events != [] {
      EventStays(cfg, w, events[0], send, batch);
      WorldNext(cfg, w, events[0]);
      RunStays(cfg, Next(cfg, w, events[0]), events[1..], send, batch);
    }
  }

  // What is committed

  /** The rows two sides agree on, up to the day. */
  predicate SameRows(a: seq<Row>, b: seq<Row>) {
    |a| == |b| && forall i :: 0 <= i < |a| ==> a[i].number == b[i].number && a[i].size == b[i].size
  }

  /** A mailbox that got these rows, and this counter. */
  predicate Delivered(b: Box, b': Box, rows: seq<Row>, counter: nat) {
    b'.queueSeq == counter && b.rows <= b'.rows && SameRows(b'.rows[|b.rows|..], rows)
  }

  predicate DeliveredTo(device: nat, before: World, after: World, rows: seq<Row>, counter: nat) {
    device in before.boxes && device in after.boxes
      && Delivered(before.boxes[device], after.boxes[device], rows, counter)
  }

  lemma CommitsAsPlanned(cfg: Config, w: World, send: nat, device: nat, rows: seq<Row>, counter: nat)
    requires WorldOk(cfg, w) && Enabled(w, Commit(send)) && device in Targets(w, send)
    requires Numbered(rows, counter, Targets(w, send)[device], device in FullOf(w, send),
                      Sizes(w.sends[send].batch, device))
    ensures DeliveredTo(device, w, Next(cfg, w, Commit(send)), rows, counter)
  {
    CommitDelivers(cfg, w, send, device);
    var b, b' := w.boxes[device], Next(cfg, w, Commit(send)).boxes[device];
    assert Backed(cfg, w.sends, device, b);
    if b.hold.Open? {
      BothContinue(b'.rows[|b.rows|..], rows, b.queueSeq, Sizes(w.sends[send].batch, device));
    } else {
      assert b'.rows == b.rows && b.rows[|b.rows|..] == [];
    }
  }

  lemma BothContinue(a: seq<Row>, b: seq<Row>, base: nat, sizes: seq<nat>)
    requires Continues(a, base, sizes) && Continues(b, base, sizes)
    ensures SameRows(a, b)
  {
  }

  /** Whatever runs between the moment a send holds its locks and its commit: if `Plan`, run on what
      the locks froze, gives these envelopes and counters, then the commit gives each device held its
      counter and appends exactly its envelopes. */
  lemma SendIsPlanned(cfg: Config, w: World, send: nat, batch: seq<Message>, events: seq<Event>, before: World,
                      device: nat, today: nat -> int,
                      accepted: seq<Envelope>, stale: seq<nat>, full: set<nat>, counters: map<nat, nat>)
    requires WorldOk(cfg, w) && Enabled(w, Size(send)) && w.sends[send].batch == batch && device in Targets(w, send)
    requires FullAre(batch, Targets(w, send), QueuedBytes(w, send), cfg.limit, full)
    requires Stamped(batch, Targets(w, send), full, accepted, stale, counters, today)
    requires before == Run(cfg, Next(cfg, w, Size(send)), events) && NotEnded(events, send)
    requires Enabled(before, Commit(send))
    ensures device in counters
    ensures DeliveredTo(device, before, Next(cfg, before, Commit(send)), RowsOf(accepted, device), counters[device])
  {
    var w1 := Next(cfg, w, Size(send));
    SizesAsPlanned(cfg, w, send);
    WorldNext(cfg, w, Size(send));
    RunStays(cfg, w1, events, send, batch);
    CommitsAsPlanned(cfg, before, send, device, RowsOf(accepted, device), counters[device]);
  }
}
