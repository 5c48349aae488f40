/** What the mailboxes promise over every run, and why sends never deadlock. */
module MailboxTheorems {
  import opened MailboxSend
  import opened Mailbox
  import opened MailboxSafety
  import opened MailboxAcks

  /** No silent loss: after any interleaving, each number ever assigned to a device that is not
      revoked is still queued, is at or below its watermark, or was deleted by an acknowledgement of
      that device that names it and found it queued. */
  lemma NoSilentLoss(cfg: Config, today: int, events: seq<Event>, device: nat, n: nat)
    requires device in Run(cfg, Start(cfg, today), events).boxes
    requires var b := Run(cfg, Start(cfg, today), events).boxes[device]; !b.revoked && 1 <= n <= b.queueSeq
    ensures var b := Run(cfg, Start(cfg, today), events).boxes[device];
      Queued(b, n) || n <= b.prunedThrough || DeletedByOwnAck(cfg, Start(cfg, today), events, device, n)
  {
    StartOk(cfg, today);
    RunOk(cfg, Start(cfg, today), events);
    assert Accounted(Run(cfg, Start(cfg, today), events).boxes[device]);
    AckedExactly(cfg, today, events, device, n);
  }

  /** And nothing is lost early: as long as the day a number was stamped on is within the retention
      window, it is queued or was deleted by its own device. */
  lemma NothingLostEarly(cfg: Config, today: int, events: seq<Event>, device: nat, n: nat)
    requires device in Run(cfg, Start(cfg, today), events).boxes
    requires var b := Run(cfg, Start(cfg, today), events).boxes[device];
      !b.revoked && 1 <= n <= b.queueSeq && n <= |b.days|
    requires var w := Run(cfg, Start(cfg, today), events); w.boxes[device].days[n - 1] >= w.clock - cfg.ttl
    ensures var b := Run(cfg, Start(cfg, today), events).boxes[device];
      n > b.prunedThrough && (Queued(b, n) || DeletedByOwnAck(cfg, Start(cfg, today), events, device, n))
  {
    NoSilentLoss(cfg, today, events, device, n);
    StartOk(cfg, today);
    RunOk(cfg, Start(cfg, today), events);
    var w := Run(cfg, Start(cfg, today), events);
    AboveWhenYoung(w.boxes[device], w.clock, w.cutoff, n);
  }

  lemma AboveWhenYoung(b: Box, clock: int, cutoff: int, n: nat)
    requires HistoryOk(b, clock) && WatermarkOk(b, cutoff) && 1 <= n <= b.queueSeq && b.days[n - 1] >= cutoff
    ensures n > b.prunedThrough
  {
  }

  /** The watermark never decreases as a run goes on. */
  lemma WatermarkRises(cfg: Config, today: int, events: seq<Event>, more: seq<Event>, device: nat)
    requires device in Run(cfg, Start(cfg, today), events).boxes
    ensures device in Run(cfg, Start(cfg, today), events + more).boxes
    ensures Run(cfg, Start(cfg, today), events).boxes[device].prunedThrough
         <= Run(cfg, Start(cfg, today), events + more).boxes[device].prunedThrough
  {
    StartOk(cfg, today);
    RunOk(cfg, Start(cfg, today), events);
    RunAppend(cfg, Start(cfg, today), events, more);
    RunOk(cfg, Run(cfg, Start(cfg, today), events), more);
  }

  lemma {:induction false} RevokedForGood(cfg: Config, w: World, events: seq<Event>, device: nat)
    requires device in w.boxes && w.boxes[device].revoked
    ensures device in Run(cfg, w, events).boxes && Run(cfg, w, events).boxes[device].revoked
    decreases |events|
  {
    if events != [] {
      RevokedForGood(cfg, Next(cfg, w, events[0]), events[1..], device);
    }
  }

  /** Once revoked, a device's mailbox is empty and stays empty, sends in flight included. */
  lemma RevokedStaysEmpty(cfg: Config, today: int, events: seq<Event>, more: seq<Event>, device: nat)
    requires device in Run(cfg, Start(cfg, today), events).boxes
    requires Run(cfg, Start(cfg, today), events).boxes[device].revoked
    ensures device in Run(cfg, Start(cfg, today), events + more).boxes
    ensures Run(cfg, Start(cfg, today), events + more).boxes[device].rows == []
  {
    StartOk(cfg, today);
    RunOk(cfg, Start(cfg, today), events + more);
    RunAppend(cfg, Start(cfg, today), events, more);
    RevokedForGood(cfg, Run(cfg, Start(cfg, today), events), more, device);
    assert RevokedOk(Run(cfg, Start(cfg, today), events + more).boxes[device]);
  }

  /** No mailbox is ever past its ceiling, and no number is queued twice. */
  lemma WithinCeiling(cfg: Config, today: int, events: seq<Event>, device: nat)
    requires device in Run(cfg, Start(cfg, today), events).boxes
    ensures Total(Run(cfg, Start(cfg, today), events).boxes[device].rows) <= cfg.limit
    ensures AscendingRows(Run(cfg, Start(cfg, today), events).boxes[device].rows)
  {
    StartOk(cfg, today);
    RunOk(cfg, Start(cfg, today), events);
  }

  /** What a commit delivers, whatever ran since the send read the sizes: a live device that was not
      full gets exactly the batch's messages for it, in order, numbered on from its counter, and
      every other device is as it was. */
  lemma CommitDelivers(cfg: Config, w: World, send: nat, device: nat)
    requires WorldOk(cfg, w) && Enabled(w, Commit(send)) && device in w.boxes
    ensures var b, b' := w.boxes[device], Next(cfg, w, Commit(send)).boxes[device];
      if b.hold.Open? && b.hold.holder == send then
        var sizes := Sizes(w.sends[send].batch, device);
        && b'.queueSeq == b.queueSeq + |sizes| && b.rows <= b'.rows
        && Continues(b'.rows[|b.rows|..], b.queueSeq, sizes)
        && Total(b'.rows) <= cfg.limit
      else b' == ReleaseBox(b, send)
  {
    var b, b' := w.boxes[device], Next(cfg, w, Commit(send)).boxes[device];
    assert Backed(cfg, w.sends, device, b);
    if b.hold.Open? && b.hold.holder == send {
      assert w.sends[send].batch[..|w.sends[send].batch|] == w.sends[send].batch;
      assert b'.rows[|b.rows|..] == b.hold.rows;
      CommitNext(cfg, w, send, device);
    }
  }

  // Sends never deadlock

  /** The device a locking send asks for next. */
  function NextId(s: Send): nat
    requires SendOk(s) && s.phase.Locking? && s.phase.at < |s.wanted|
  {
    s.wanted[s.phase.at]
  }

  predicate CanStep(w: World, k: nat) {
    Enabled(w, Lock(k)) || Enabled(w, Size(k)) || Enabled(w, StampNext(k)) || Enabled(w, Commit(k))
  }

  /** A send that cannot step waits for a lock another send holds. */
  lemma Waiting(cfg: Config, w: World, k: nat)
    requires WorldOk(cfg, w) && k in w.sends && !CanStep(w, k)
    ensures SendOk(w.sends[k]) && w.sends[k].phase.Locking? && w.sends[k].phase.at < |w.sends[k].wanted|
    ensures NextId(w.sends[k]) in w.boxes && !w.boxes[NextId(w.sends[k])].hold.Free?
    ensures w.boxes[NextId(w.sends[k])].hold.holder in w.sends
  {
    assert SendOk(w.sends[k]);
    assert NextId(w.sends[k]) in w.boxes && Backed(cfg, w.sends, NextId(w.sends[k]), w.boxes[NextId(w.sends[k])]);
  }

  /** And if that one waits too, it waits for a higher id. */
  lemma WaitsHigher(cfg: Config, w: World, k: nat, j: nat)
    requires WorldOk(cfg, w) && k in w.sends && j in w.sends && !CanStep(w, k) && !CanStep(w, j)
    requires Asked(w.sends[k]) in w.boxes && HeldBy(w.boxes[Asked(w.sends[k])].hold, j)
    ensures Asked(w.sends[k]) < Asked(w.sends[j])
  {
    Waiting(cfg, w, k);
    Waiting(cfg, w, j);
    var id := Asked(w.sends[k]);
    assert Backed(cfg, w.sends, id, w.boxes[id]);
    var i :| 0 <= i < w.sends[j].phase.at && w.sends[j].wanted[i] == id;
  }

  predicate SomeStep(w: World) {
    exists k :: k in w.sends && CanStep(w, k)
  }

  predicate AllBelow(ids: set<nat>, bound: nat) {
    forall d :: d in ids ==> d < bound
  }

  /** Following the waits from one send, the ids asked for grow, so the chain ends at a send that can step. */
  lemma {:induction false} ChainEnds(cfg: Config, w: World, k: nat, bound: nat)
    requires WorldOk(cfg, w) && k in w.sends && AllBelow(w.boxes.Keys, bound)
    ensures SomeStep(w)
    decreases if CanStep(w, k) then 0 else bound - Asked(w.sends[k])
  {
    if !CanStep(w, k) {
      Waiting(cfg, w, k);
      var j := w.boxes[Asked(w.sends[k])].hold.holder;
      if !CanStep(w, j) {
        WaitsHigher(cfg, w, k, j);
      }
      ChainEnds(cfg, w, j, bound);
    }
  }

  function Asked(s: Send): nat {
    if s.phase.Locking? && s.phase.at < |s.wanted| then s.wanted[s.phase.at] else 0
  }

  lemma {:induction false} Bounded(ids: set<nat>) returns (bound: nat)
    ensures AllBelow(ids, bound)
  {
    bound := 0;
    if ids != {} {
      var x :| x in ids;
      bound := Bounded(ids - {x});
      assert forall d :: d in ids ==> d == x || d in ids - {x};
      if bound <= x {
        bound := x + 1;
      }
    }
  }

  /** After any interleaving, if any send is unfinished then some send can take its next lock, read
      sizes, stamp or commit. */
  lemma SendsNeverDeadlock(cfg: Config, today: int, events: seq<Event>)
    requires Run(cfg, Start(cfg, today), events).sends != map[]
    ensures SomeStep(Run(cfg, Start(cfg, today), events))
  {
    StartOk(cfg, today);
    RunOk(cfg, Start(cfg, today), events);
    SomeSendSteps(cfg, Run(cfg, Start(cfg, today), events));
  }

  lemma SomeSendSteps(cfg: Config, w: World)
    requires WorldOk(cfg, w) && w.sends != map[]
    ensures SomeStep(w)
  {
    var k :| k in w.sends;
    var bound := Bounded(w.boxes.Keys);
    ChainEnds(cfg, w, k, bound);
  }
}
