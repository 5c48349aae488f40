/** What one send decides under its locks (`send` of messaging/services.py): which messages are
    accepted, stale or addressed to a full mailbox, and the sequence numbers it hands out. */
module MailboxSend {

  datatype Message = Message(device: nat, size: nat)

  /** One queued envelope of a mailbox, with the UTC day it was stamped on. */
  datatype Row = Row(number: nat, size: nat, day: int)

  datatype Envelope = Envelope(device: nat, row: Row)

  // What a batch holds for one device

  function Sizes(batch: seq<Message>, device: nat): seq<nat> {
    if batch == [] then []
    else
      var last := batch[|batch| - 1];
      var front := Sizes(batch[..|batch| - 1], device);
      if last.device == device then front + [last.size] else front
  }

  function Sum(sizes: seq<nat>): nat {
    if sizes == [] then 0 else Sum(sizes[..|sizes| - 1]) + sizes[|sizes| - 1]
  }

  function Incoming(batch: seq<Message>, device: nat): nat {
    Sum(Sizes(batch, device))
  }

  lemma SizesAppend(batch: seq<Message>, m: Message, device: nat)
    ensures Sizes(batch + [m], device)
      == if m.device == device then Sizes(batch, device) + [m.size] else Sizes(batch, device)
  {
    assert (batch + [m])[..|batch|] == batch;
  }

  lemma SumAppend(sizes: seq<nat>, size: nat)
    ensures Sum(sizes + [size]) == Sum(sizes) + size
  {
    assert (sizes + [size])[..|sizes|] == sizes;
  }

  lemma {:induction false} IncomingPrefix(batch: seq<Message>, n: nat, device: nat)
    requires n <= |batch|
    ensures Incoming(batch[..n], device) <= Incoming(batch, device)
    decreases |batch| - n
  {
    if n < |batch| {
      IncomingPrefix(batch, n + 1, device);
      assert batch[..n + 1] == batch[..n] + [batch[n]];
      SizesAppend(batch[..n], batch[n], device);
      if batch[n].device == device {
        SumAppend(Sizes(batch[..n], device), batch[n].size);
      }
    } else {
      assert batch[..n] == batch;
    }
  }

  // The three fates of a message

  function HeldBytes(held: map<nat, nat>, device: nat): nat {
    if device in held then held[device] else 0
  }

  /** A live device named by the batch whose mailbox the whole of its part would not fit. */
  predicate Overfull(batch: seq<Message>, targets: map<nat, nat>, held: map<nat, nat>, limit: nat, device: nat) {
    device in targets && Sizes(batch, device) != [] && HeldBytes(held, device) + Incoming(batch, device) > limit
  }

  /** The places of the messages that pass a test, in batch order. */
  function Places(batch: seq<Message>, test: Message -> bool): seq<nat> {
    if batch == [] then []
    else
      var front := Places(batch[..|batch| - 1], test);
      if test(batch[|batch| - 1]) then front + [|batch| - 1] else front
  }

  function ToNobody(targets: map<nat, nat>): Message -> bool {
    (m: Message) => m.device !in targets
  }

  function ToFull(full: set<nat>): Message -> bool {
    (m: Message) => m.device in full
  }

  function Deliverable(targets: map<nat, nat>, full: set<nat>): Message -> bool {
    (m: Message) => m.device in targets && m.device !in full
  }

  /** The devices of the messages addressed to no live one, in batch order. */
  function Stale(batch: seq<Message>, targets: map<nat, nat>): seq<nat> {
    if batch == [] then []
    else
      var last := batch[|batch| - 1];
      var front := Stale(batch[..|batch| - 1], targets);
      if last.device in targets then front else front + [last.device]
  }

  function Kept(batch: seq<Message>, targets: map<nat, nat>, full: set<nat>): seq<nat> {
    Places(batch, Deliverable(targets, full))
  }

  /** Exactly the places that pass, each once. */
  lemma {:induction false} PlacesAre(batch: seq<Message>, test: Message -> bool)
    ensures forall i :: i in Places(batch, test) <==> 0 <= i < |batch| && test(batch[i])
    ensures forall j, k :: 0 <= j < k < |Places(batch, test)| ==> Places(batch, test)[j] < Places(batch, test)[k]
  {
    if batch != [] {
      PlacesAre(batch[..|batch| - 1], test);
      var front := Places(batch[..|batch| - 1], test);
      assert forall j :: 0 <= j < |front| ==> front[j] in front;
    }
  }

  lemma {:induction false} StaleIs(batch: seq<Message>, targets: map<nat, nat>)
    ensures var places := Places(batch, ToNobody(targets));
      && |Stale(batch, targets)| == |places|
      && forall j :: 0 <= j < |places| ==> places[j] < |batch| && Stale(batch, targets)[j] == batch[places[j]].device
  {
    if batch != [] {
      StaleIs(batch[..|batch| - 1], targets);
    }
  }

  lemma {:induction false} FatesAddUp(batch: seq<Message>, targets: map<nat, nat>, full: set<nat>)
    requires full <= targets.Keys
    ensures |Kept(batch, targets, full)| + |Places(batch, ToNobody(targets))| + |Places(batch, ToFull(full))| == |batch|
  {
    if batch != [] {
      FatesAddUp(batch[..|batch| - 1], targets, full);
    }
  }

  /** Message `i` is accepted exactly when its device is live and not full, refused exactly when it is
      full, and stale exactly when it is not live; each place is listed once, under one fate. */
  lemma OneFateEach(batch: seq<Message>, targets: map<nat, nat>, full: set<nat>, i: nat)
    requires full <= targets.Keys && i < |batch|
    ensures i in Kept(batch, targets, full) <==> batch[i].device in targets && batch[i].device !in full
    ensures i in Places(batch, ToFull(full)) <==> batch[i].device in full
    ensures i in Places(batch, ToNobody(targets)) <==> batch[i].device !in targets
    ensures |Kept(batch, targets, full)| + |Places(batch, ToNobody(targets))| + |Places(batch, ToFull(full))| == |batch|
  {
    PlacesAre(batch, Deliverable(targets, full));
    PlacesAre(batch, ToFull(full));
    PlacesAre(batch, ToNobody(targets));
    FatesAddUp(batch, targets, full);
  }

  function RowsOf(accepted: seq<Envelope>, device: nat): seq<Row> {
    if accepted == [] then []
    else
      var last := accepted[|accepted| - 1];
      var front := RowsOf(accepted[..|accepted| - 1], device);
      if last.device == device then front + [last.row] else front
  }

  lemma RowsOfAppend(accepted: seq<Envelope>, e: Envelope, device: nat)
    ensures RowsOf(accepted + [e], device)
      == if e.device == device then RowsOf(accepted, device) + [e.row] else RowsOf(accepted, device)
  {
    assert (accepted + [e])[..|accepted|] == accepted;
  }

  /** Rows that continue a mailbox after `base`: consecutive numbers, the given sizes in order. */
  predicate Continues(rows: seq<Row>, base: nat, sizes: seq<nat>) {
    |rows| == |sizes| && forall i :: 0 <= i < |rows| ==> rows[i].number == base + i + 1 && rows[i].size == sizes[i]
  }

  /** The accepted envelopes are the kept messages, in batch order, each with the day read for it. */
  predicate Carries(accepted: seq<Envelope>, batch: seq<Message>, kept: seq<nat>, today: nat -> int) {
    && |accepted| == |kept|
    && forall j :: 0 <= j < |kept| ==>
         && kept[j] < |batch|
         && accepted[j].device == batch[kept[j]].device && accepted[j].row.size == batch[kept[j]].size
         && accepted[j].row.day == today(kept[j])
  }

  /** A full device is untouched; any other live one got the next numbers, one for each of its messages. */
  predicate Numbered(rows: seq<Row>, counter: nat, base: nat, isFull: bool, sizes: seq<nat>) {
    if isFull then counter == base && rows == [] else counter == base + |sizes| && Continues(rows, base, sizes)
  }

  ghost predicate FullAre(batch: seq<Message>, targets: map<nat, nat>, held: map<nat, nat>, limit: nat,
                          full: set<nat>) {
    forall d :: d in full <==> Overfull(batch, targets, held, limit, d)
  }

  /** What the second loop has done after a prefix of the batch: the stale devices, the accepted
      envelopes, and the counters of the live ones. */
  predicate Stamped(done: seq<Message>, targets: map<nat, nat>, full: set<nat>,
                    accepted: seq<Envelope>, stale: seq<nat>, counters: map<nat, nat>, today: nat -> int)
  {
    && stale == Stale(done, targets)
    && Carries(accepted, done, Kept(done, targets, full), today)
    && counters.Keys == targets.Keys
    && forall d :: d in targets ==> Numbered(RowsOf(accepted, d), counters[d], targets[d], d in full, Sizes(done, d))
  }

  /** The loops of `send`: add up what the batch brings each live device, find the full ones, then
      hand out numbers in batch order. `today(i)` is the day read while message `i` is stamped. */
  method Plan(batch: seq<Message>, targets: map<nat, nat>, held: map<nat, nat>, limit: nat, today: nat -> int)
    returns (accepted: seq<Envelope>, stale: seq<nat>, full: set<nat>, counters: map<nat, nat>)
    ensures FullAre(batch, targets, held, limit, full)
    ensures Stamped(batch, targets, full, accepted, stale, counters, today)
  {
    var incoming := Weigh(batch, targets);
    full := set d | d in incoming && HeldBytes(held, d) + incoming[d] > limit;
    accepted, stale, counters := Stamp(batch, targets, full, today);
  }

  /** The first loop. */
  method Weigh(batch: seq<Message>, targets: map<nat, nat>) returns (incoming: map<nat, nat>)
    ensures forall d :: d in incoming <==> d in targets && Sizes(batch, d) != []
    ensures forall d :: d in incoming ==> incoming[d] == Incoming(batch, d)
  {
    incoming := map[];
    var i := 0;
    while i < |batch|
      invariant i <= |batch|
      invariant forall d :: d in incoming <==> d in targets && Sizes(batch[..i], d) != []
      invariant forall d :: d in incoming ==> incoming[d] == Incoming(batch[..i], d)
    {
      var m := batch[i];
      assert batch[..i + 1] == batch[..i] + [m];
      SumAppend(Sizes(batch[..i], m.device), m.size);
      assert batch[..i + 1][..i] == batch[..i];
      if m.device in targets {
        incoming := incoming[m.device := (if m.device in incoming then incoming[m.device] else 0) + m.size];
      }
      i := i + 1;
    }
    assert batch[..i] == batch;
  }

  lemma NumberedNext(rows: seq<Row>, counter: nat, base: nat, sizes: seq<nat>, row: Row)
    requires Numbered(rows, counter, base, false, sizes) && row.number == counter + 1
    ensures Numbered(rows + [row], counter + 1, base, false, sizes + [row.size])
  {
  }

  lemma CarriesNext(accepted: seq<Envelope>, done: seq<Message>, kept: seq<nat>, today: nat -> int, e: Envelope,
                    m: Message)
    requires Carries(accepted, done, kept, today)
    requires e.device == m.device && e.row.size == m.size && e.row.day == today(|done|)
    ensures Carries(accepted + [e], done + [m], kept + [|done|], today)
  {
  }

  lemma StampedAccepted(done: seq<Message>, targets: map<nat, nat>, full: set<nat>,
                        accepted: seq<Envelope>, stale: seq<nat>, counters: map<nat, nat>, today: nat -> int,
                        m: Message)
    requires Stamped(done, targets, full, accepted, stale, counters, today) && m.device in targets && m.device !in full
    ensures Stamped(done + [m], targets, full,
                    accepted + [Envelope(m.device, Row(counters[m.device] + 1, m.size, today(|done|)))], stale,
                    counters[m.device := counters[m.device] + 1], today)
  {
    var e := Envelope(m.device, Row(counters[m.device] + 1, m.size, today(|done|)));
    assert (done + [m])[..|done|] == done;
    forall d | d in targets
      ensures Numbered(RowsOf(accepted + [e], d), counters[m.device := counters[m.device] + 1][d], targets[d],
                       d in full, Sizes(done + [m], d))
    {
      RowsOfAppend(accepted, e, d);
      SizesAppend(done, m, d);
      if d == m.device {
        NumberedNext(RowsOf(accepted, d), counters[d], targets[d], Sizes(done, d), e.row);
      }
    }
    CarriesNext(accepted, done, Kept(done, targets, full), today, e, m);
  }

  lemma StampedOther(done: seq<Message>, targets: map<nat, nat>, full: set<nat>,
                     accepted: seq<Envelope>, stale: seq<nat>, counters: map<nat, nat>, today: nat -> int, m: Message)
    requires Stamped(done, targets, full, accepted, stale, counters, today)
    requires m.device in targets ==> m.device in full
    ensures Stamped(done + [m], targets, full, accepted, if m.device in targets then stale else stale + [m.device],
                    counters, today)
  {
    assert (done + [m])[..|done|] == done;
    forall d | d in targets
      ensures Numbered(RowsOf(accepted, d), counters[d], targets[d], d in full, Sizes(done + [m], d))
    {
      SizesAppend(done, m, d);
    }
  }

  /** One pass of the second loop. */
  method StampMessage(ghost done: seq<Message>, m: Message, targets: map<nat, nat>, full: set<nat>,
                      accepted: seq<Envelope>, stale: seq<nat>, counters: map<nat, nat>,
                      ghost today: nat -> int, day: int)
    returns (accepted': seq<Envelope>, stale': seq<nat>, counters': map<nat, nat>)
    requires Stamped(done, targets, full, accepted, stale, counters, today) && day == today(|done|)
    ensures Stamped(done + [m], targets, full, accepted', stale', counters', today)
  {
    accepted', stale', counters' := accepted, stale, counters;
    if m.device !in targets {
      StampedOther(done, targets, full, accepted, stale, counters, today, m);
      stale' := stale + [m.device];
    } else if m.device in full {
      StampedOther(done, targets, full, accepted, stale, counters, today, m);
    } else {
      StampedAccepted(done, targets, full, accepted, stale, counters, today, m);
      counters' := counters[m.device := counters[m.device] + 1];
      accepted' := accepted + [Envelope(m.device, Row(counters'[m.device], m.size, day))];
    }
  }

  /** The second loop. */
  method Stamp(batch: seq<Message>, targets: map<nat, nat>, full: set<nat>, today: nat -> int)
    returns (accepted: seq<Envelope>, stale: seq<nat>, counters: map<nat, nat>)
    ensures Stamped(batch, targets, full, accepted, stale, counters, today)
  {
    accepted, stale, counters := [], [], targets;
    var i := 0;
    while i < |batch|
      invariant i <= |batch| && Stamped(batch[..i], targets, full, accepted, stale, counters, today)
    {
      accepted, stale, counters :=
        StampMessage(batch[..i], batch[i], targets, full, accepted, stale, counters, today, today(i));
      assert batch[..i + 1] == batch[..i] + [batch[i]];
      i := i + 1;
    }
    assert batch[..i] == batch;
  }
}
