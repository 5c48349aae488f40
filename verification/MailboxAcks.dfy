/** What an acknowledgement and a revocation do, exactly, and that the record of what a device deleted
    holds what its own acknowledgements deleted and nothing else. */
module MailboxAcks {
  import opened MailboxSend
  import opened Mailbox
  import opened MailboxSafety

  /** An acknowledgement deletes exactly the queued rows it names: a row is queued afterwards if and only
      if it was queued and its number is not named. The rest stand in their order, and no other field,
      mailbox or part of the store changes. */
  lemma AckExactly(cfg: Config, w: World, device: nat, numbers: set<nat>)
    requires WorldOk(cfg, w) && device in w.boxes
    ensures device in Next(cfg, w, Ack(device, numbers)).boxes
    ensures var w' := Next(cfg, w, Ack(device, numbers));
      var b, b' := w.boxes[device], w'.boxes[device];
      && (forall r :: r in b'.rows <==> r in b.rows && r.number !in numbers)
      && AscendingRows(b.rows) && AscendingRows(b'.rows)
      && (forall n :: n in b'.acked <==> n in b.acked || (n in numbers && Queued(b, n)))
      && b' == b.(rows := b'.rows, acked := b'.acked)
      && w' == w.(boxes := w.boxes[device := b'])
  {
    assert BoxOk(cfg, w.boxes[device], w.clock, w.cutoff);
    WithoutIs(w.boxes[device].rows, numbers);
    WithoutAscends(w.boxes[device].rows, numbers);
  }

  /** In ascending rows each is at one place, so which rows there are says in what order they stand. */
  lemma {:induction false} AscendingIsOrder(a: seq<Row>, b: seq<Row>)
    requires AscendingRows(a) && AscendingRows(b) && forall r :: r in a <==> r in b
    ensures a == b
  {
    EmptyAlike(a, b);
    if a != [] {
      var x, y := a[|a| - 1], b[|b| - 1];
      var front, front' := a[..|a| - 1], b[..|b| - 1];
      assert a == front + [x] && b == front' + [y];
      assert x in b && y in a;
      assert x == y;
      FrontsAgree(front, front', x);
      AscendingIsOrder(front, front');
    }
  }

  lemma EmptyAlike(a: seq<Row>, b: seq<Row>)
    requires forall r :: r in a <==> r in b
    ensures a == [] <==> b == []
  {
    if a != [] {
      assert a[0] in a;
    }
    if b != [] {
      assert b[0] in b;
    }
  }

  lemma FrontsAgree(front: seq<Row>, front': seq<Row>, x: Row)
    requires forall r :: r in front + [x] <==> r in front' + [x]
    requires (forall r :: r in front ==> r.number < x.number) && (forall r :: r in front' ==> r.number < x.number)
    ensures forall r :: r in front <==> r in front'
  {
    forall r
      ensures r in front <==> r in front'
    {
      assert r in front + [x] <==> r in front' + [x];
    }
  }

  lemma {:induction false} WithoutTwice(rows: seq<Row>, numbers: set<nat>)
    ensures Without(Without(rows, numbers), numbers) == Without(rows, numbers)
  {
    if rows != [] {
      var front, last := Without(rows[..|rows| - 1], numbers), rows[|rows| - 1];
      WithoutTwice(rows[..|rows| - 1], numbers);
      if last.number !in numbers {
        assert (front + [last])[..|front|] == front;
      }
    }
  }

  lemma AckBoxTwice(b: Box, numbers: set<nat>)
    ensures AckBox(AckBox(b, numbers), numbers) == AckBox(b, numbers)
  {
    WithoutTwice(b.rows, numbers);
    WithoutIs(b.rows, numbers);
    var b' := AckBox(b, numbers);
    assert (set r | r in b'.rows && r.number in numbers :: r.number) == {};
  }

  /** A second acknowledgement of the same numbers deletes nothing. */
  lemma AckTwice(cfg: Config, w: World, device: nat, numbers: set<nat>)
    requires device in w.boxes
    ensures var w' := Next(cfg, w, Ack(device, numbers)); Next(cfg, w', Ack(device, numbers)) == w'
  {
    AckBoxTwice(w.boxes[device], numbers);
    var boxes := w.boxes[device := AckBox(w.boxes[device], numbers)];
    assert boxes[device := boxes[device]] == boxes;
  }

  /** With no send holding its device, a revocation empties that mailbox, marks it revoked and touches
      nothing else. */
  lemma RevokeExactly(cfg: Config, w: World, device: nat)
    requires device in w.boxes && !w.boxes[device].revoked && w.boxes[device].hold.Free?
    ensures Next(cfg, w, Revoke(device))
      == w.(boxes := w.boxes[device := w.boxes[device].(revoked := true, rows := [])])
  {
  }

  predicate IsLive(w: World, device: nat) {
    device in w.boxes && Live(w.boxes[device])
  }

  /** A device is live from its registration on, except while its account is inactive, and until it is
      revoked; nothing else decides it. */
  lemma LiveExactly(cfg: Config, w: World, e: Event, device: nat)
    ensures IsLive(Next(cfg, w, e), device) <==>
      if e.Register? && e.device == device && device !in w.boxes then true
      else if e.SetActive? && e.device == device && device in w.boxes then e.active && !w.boxes[device].revoked
      else IsLive(w, device) && !(e == Revoke(device) && w.boxes[device].hold.Free?)
  {
    if device in w.boxes && !e.Register? {
      SameLife(cfg, w, e, device);
    }
  }

  lemma SameLife(cfg: Config, w: World, e: Event, device: nat)
    requires device in w.boxes && !e.Register?
    ensures device in Next(cfg, w, e).boxes
    ensures Next(cfg, w, e).boxes[device].active
      == if e.SetActive? && e.device == device then e.active else w.boxes[device].active
    ensures Next(cfg, w, e).boxes[device].revoked
      == (w.boxes[device].revoked || (e == Revoke(device) && w.boxes[device].hold.Free?))
  {
  }

  /** A device registers with an empty mailbox, its numbers starting at 1 and nothing pruned. */
  lemma RegisterExactly(cfg: Config, w: World, device: nat)
    requires device !in w.boxes
    ensures var w' := Next(cfg, w, Register(device));
      && w' == w.(boxes := w.boxes[device := w'.boxes[device]]) && IsLive(w', device)
      && var b := w'.boxes[device];
         b.rows == [] && b.queueSeq == 0 && b.prunedThrough == 0 && b.hold.Free? && b.acked == {} && b.days == []
  {
  }

  // The record of acknowledgements

  lemma RunLast(cfg: Config, w: World, events: seq<Event>, e: Event)
    ensures Run(cfg, w, events + [e]) == Next(cfg, Run(cfg, w, events), e)
  {
    RunAppend(cfg, w, events, [e]);
    assert Run(cfg, Run(cfg, w, events), [e]) == Run(cfg, Next(cfg, Run(cfg, w, events), e), []);
  }

  predicate QueuedIn(w: World, device: nat, n: nat) {
    device in w.boxes && Queued(w.boxes[device], n)
  }

  predicate AckedIn(w: World, device: nat, n: nat) {
    device in w.boxes && n in w.boxes[device].acked
  }

  /** This event is the device acknowledging the number while it is queued. */
  predicate Acknowledges(w: World, e: Event, device: nat, n: nat) {
    e.Ack? && e.device == device && n in e.numbers && QueuedIn(w, device, n)
  }

  /** Somewhere in the run the device itself acknowledged the number while it was queued. */
  ghost predicate DeletedByOwnAck(cfg: Config, w: World, events: seq<Event>, device: nat, n: nat) {
    exists i :: 0 <= i < |events| && Acknowledges(Run(cfg, w, events[..i]), events[i], device, n)
  }

  lemma AckedNext(cfg: Config, w: World, e: Event, device: nat, n: nat)
    ensures AckedIn(Next(cfg, w, e), device, n) <==> AckedIn(w, device, n) || Acknowledges(w, e, device, n)
  {
  }

  lemma DeletedLast(cfg: Config, w: World, events: seq<Event>, e: Event, device: nat, n: nat)
    ensures DeletedByOwnAck(cfg, w, events + [e], device, n) <==>
      DeletedByOwnAck(cfg, w, events, device, n) || Acknowledges(Run(cfg, w, events), e, device, n)
  {
    var all := events + [e];
    assert all[..|events|] == events && all[|events|] == e;
    assert forall i :: 0 <= i < |events| ==> all[..i] == events[..i] && all[i] == events[i];
    if DeletedByOwnAck(cfg, w, events, device, n) {
      var i :| 0 <= i < |events| && Acknowledges(Run(cfg, w, events[..i]), events[i], device, n);
      assert Acknowledges(Run(cfg, w, all[..i]), all[i], device, n);
    }
    if Acknowledges(Run(cfg, w, events), e, device, n) {
      assert Acknowledges(Run(cfg, w, all[..|events|]), all[|events|], device, n);
    }
  }

  /** In every run from an empty store, a number is on record as deleted by the device exactly when the run
      holds that device's acknowledgement of it, made while it was queued. */
  lemma {:induction false} AckedExactly(cfg: Config, today: int, events: seq<Event>, device: nat, n: nat)
    ensures AckedIn(Run(cfg, Start(cfg, today), events), device, n)
      <==> DeletedByOwnAck(cfg, Start(cfg, today), events, device, n)
    decreases |events|
  {
    if events != [] {
      var front, e := events[..|events| - 1], events[|events| - 1];
      assert events == front + [e];
      AckedExactly(cfg, today, front, device, n);
      RunLast(cfg, Start(cfg, today), front, e);
      AckedNext(cfg, Run(cfg, Start(cfg, today), front), e, device, n);
      DeletedLast(cfg, Start(cfg, today), front, e, device, n);
    }
  }
}
