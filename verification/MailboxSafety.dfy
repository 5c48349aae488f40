/** Safety of the mailboxes in every interleaving: nothing assigned is lost without trace, the
    watermark only rises, revoked mailboxes stay empty, and no mailbox passes its ceiling. */
module MailboxSafety {
  import opened MailboxSend
  import opened Mailbox

  // Rows

  /** Each row's number is above all before it. */
  predicate AscendingRows(rows: seq<Row>) {
    rows == [] || (
      var front, last := rows[..|rows| - 1], rows[|rows| - 1];
      AscendingRows(front) && forall r :: r in front ==> r.number < last.number)
  }

  lemma AscendingNext(rows: seq<Row>, row: Row)
    requires AscendingRows(rows) && forall r :: r in rows ==> r.number < row.number
    ensures AscendingRows(rows + [row])
  {
    assert (rows + [row])[..|rows|] == rows;
  }

  lemma {:induction false} AscendingAppend(a: seq<Row>, b: seq<Row>, base: nat)
    requires AscendingRows(a) && (forall r :: r in a ==> r.number <= base)
    requires forall i :: 0 <= i < |b| ==> b[i].number == base + i + 1
    ensures AscendingRows(a + b) && forall r :: r in a + b ==> r.number <= base + |b|
  {
    if b == [] {
      assert a + b == a;
    } else {
      var front, last := b[..|b| - 1], b[|b| - 1];
      AscendingAppend(a, front, base);
      AscendingNext(a + front, last);
      assert a + b == a + front + [last];
    }
  }

  lemma {:induction false} WithoutIs(rows: seq<Row>, numbers: set<nat>)
    ensures forall r :: r in Without(rows, numbers) <==> r in rows && r.number !in numbers
    ensures Total(Without(rows, numbers)) <= Total(rows)
  {
    if rows != [] {
      var front, last := rows[..|rows| - 1], rows[|rows| - 1];
      WithoutIs(front, numbers);
      assert rows == front + [last];
      if last.number !in numbers {
        TotalAppend(Without(front, numbers), [last]);
      }
    }
  }

  lemma {:induction false} WithoutAscends(rows: seq<Row>, numbers: set<nat>)
    requires AscendingRows(rows)
    ensures AscendingRows(Without(rows, numbers))
  {
    if rows != [] {
      var front, last := rows[..|rows| - 1], rows[|rows| - 1];
      WithoutAscends(front, numbers);
      WithoutIs(front, numbers);
      if last.number !in numbers {
        AscendingNext(Without(front, numbers), last);
      }
    }
  }

  lemma {:induction false} TotalAppend(a: seq<Row>, b: seq<Row>)
    ensures Total(a + b) == Total(a) + Total(b)
  {
    if b == [] {
      assert a + b == a;
    } else {
      TotalAppend(a, b[..|b| - 1]);
      assert (a + b)[..|a + b| - 1] == a + b[..|b| - 1];
    }
  }

  lemma {:induction false} TotalOfSizes(rows: seq<Row>, base: nat, sizes: seq<nat>)
    requires Continues(rows, base, sizes)
    ensures Total(rows) == Sum(sizes)
  {
    if rows != [] {
      TotalOfSizes(rows[..|rows| - 1], base, sizes[..|sizes| - 1]);
    }
  }

  lemma {:induction false} TopIs(rows: seq<Row>, numbers: set<nat>)
    ensures forall r :: r in rows && r.number in numbers ==> r.number <= Top(rows, numbers)
    ensures Top(rows, numbers) != 0 ==> exists r :: r in rows && r.number in numbers && r.number == Top(rows, numbers)
  {
    if rows != [] {
      TopIs(rows[..|rows| - 1], numbers);
      assert rows == rows[..|rows| - 1] + [rows[|rows| - 1]];
    }
  }

  // One mailbox

  predicate Queued(b: Box, n: nat) {
    exists r :: r in b.rows && r.number == n
  }

  predicate Monotone(days: seq<int>) {
    forall i, j :: 0 <= i < j < |days| ==> days[i] <= days[j]
  }

  /** Numbers were stamped in order of time. */
  predicate HistoryOk(b: Box, clock: int) {
    |b.days| == b.queueSeq && Monotone(b.days) && forall i :: 0 <= i < |b.days| ==> b.days[i] <= clock
  }

  predicate RowsOk(b: Box)
    requires |b.days| == b.queueSeq
  {
    && AscendingRows(b.rows)
    && forall r :: r in b.rows ==> 1 <= r.number <= b.queueSeq && r.day == b.days[r.number - 1]
  }

  /** No silent loss: what is neither queued nor deleted by the device itself is under the mark. */
  predicate Accounted(b: Box) {
    !b.revoked ==> forall n :: 1 <= n <= b.queueSeq ==> Queued(b, n) || n in b.acked || n <= b.prunedThrough
  }

  predicate RevokedOk(b: Box) {
    b.revoked ==> b.rows == [] && b.hold.Free?
  }

  /** The mark is the number of an expired envelope. */
  predicate WatermarkOk(b: Box, cutoff: int)
    requires |b.days| == b.queueSeq
  {
    b.prunedThrough <= b.queueSeq && (b.prunedThrough > 0 ==> b.days[b.prunedThrough - 1] < cutoff)
  }

  /** What the sweep selected is expired, and what it measured bounds what it will delete. */
  predicate MarkOk(b: Box, cutoff: int)
    requires |b.days| == b.queueSeq
  {
    match b.mark
    case Unmarked => true
    case Picked(numbers) => forall n :: n in numbers ==> 1 <= n <= b.queueSeq && b.days[n - 1] < cutoff
    case Topped(numbers, top) =>
      && (forall n :: n in numbers ==> 1 <= n <= b.queueSeq && b.days[n - 1] < cutoff)
      && top <= b.queueSeq && (top > 0 ==> b.days[top - 1] < cutoff)
      && forall r :: r in b.rows && r.number in numbers ==> r.number <= top
  }

  /** The rows a send has stamped but not committed continue the mailbox, in number and in time. */
  predicate HoldOk(b: Box, clock: int) {
    b.hold.Open? ==>
      && Total(b.rows) <= b.hold.held
      && (forall i :: 0 <= i < |b.hold.rows| ==>
          b.hold.rows[i].number == b.queueSeq + i + 1 && b.hold.rows[i].day <= clock)
      && Monotone(b.days + Days(b.hold.rows))
  }

  predicate BoxOk(cfg: Config, b: Box, clock: int, cutoff: int) {
    && HistoryOk(b, clock) && RowsOk(b) && Accounted(b) && RevokedOk(b) && WatermarkOk(b, cutoff)
    && MarkOk(b, cutoff) && HoldOk(b, clock) && Total(b.rows) <= cfg.limit
  }

  // Each operation on one mailbox

  lemma TimePasses(cfg: Config, b: Box, clock: int, cutoff: int, clock': int, cutoff': int)
    requires BoxOk(cfg, b, clock, cutoff) && clock <= clock' && cutoff <= cutoff'
    ensures BoxOk(cfg, b, clock', cutoff')
  {
  }

  lemma MonotoneNext(days: seq<int>, day: int)
    requires Monotone(days) && forall i :: 0 <= i < |days| ==> days[i] <= day
    ensures Monotone(days + [day])
  {
  }

  lemma StampHold(b: Box, clock: int, send: nat, size: nat)
    requires HistoryOk(b, clock) && HoldOk(b, clock) && b.hold.Open? && b.hold.holder == send
    ensures HoldOk(StampBox(b, send, size, clock), clock)
  {
    var row := Row(b.queueSeq + |b.hold.rows| + 1, size, clock);
    MonotoneNext(b.days + Days(b.hold.rows), clock);
    assert b.days + Days(b.hold.rows + [row]) == b.days + Days(b.hold.rows) + [clock];
  }

  lemma StampKeeps(cfg: Config, b: Box, clock: int, cutoff: int, send: nat, size: nat)
    requires BoxOk(cfg, b, clock, cutoff)
    ensures BoxOk(cfg, StampBox(b, send, size, clock), clock, cutoff)
  {
    if b.hold.Open? && b.hold.holder == send {
      StampHold(b, clock, send, size);
    }
  }

  /** Committing appends the stamped rows. Their sizes must fit beside what was measured. */
  lemma CommitKeeps(cfg: Config, b: Box, clock: int, cutoff: int, send: nat)
    requires BoxOk(cfg, b, clock, cutoff) && (b.hold.Open? ==> b.hold.held + Total(b.hold.rows) <= cfg.limit)
    ensures BoxOk(cfg, CommitBox(b, send), clock, cutoff)
  {
    if b.hold.Open? && b.hold.holder == send {
      TotalAppend(b.rows, b.hold.rows);
      CommitHistory(b, clock, send);
      CommitMarks(b, clock, cutoff, send);
      CommitRows(b, clock, send);
      CommitAccounts(b, clock, send);
    }
  }

  lemma CommitHistory(b: Box, clock: int, send: nat)
    requires HistoryOk(b, clock) && HoldOk(b, clock) && b.hold.Open? && b.hold.holder == send
    ensures HistoryOk(CommitBox(b, send), clock)
  {
  }

  lemma CommitRows(b: Box, clock: int, send: nat)
    requires HistoryOk(b, clock) && HoldOk(b, clock) && RowsOk(b) && b.hold.Open? && b.hold.holder == send
    ensures RowsOk(CommitBox(b, send))
  {
    var b' := CommitBox(b, send);
    forall r | r in b'.rows
      ensures 1 <= r.number <= b'.queueSeq && r.day == b'.days[r.number - 1]
    {
      if r in b.rows {
      } else {
        var i :| 0 <= i < |b.hold.rows| && b.hold.rows[i] == r;
      }
    }
    AscendingAppend(b.rows, b.hold.rows, b.queueSeq);
  }

  lemma CommitMarks(b: Box, clock: int, cutoff: int, send: nat)
    requires HistoryOk(b, clock) && HoldOk(b, clock) && WatermarkOk(b, cutoff) && MarkOk(b, cutoff)
    requires b.hold.Open? && b.hold.holder == send
    ensures HistoryOk(CommitBox(b, send), clock)
    ensures WatermarkOk(CommitBox(b, send), cutoff) && MarkOk(CommitBox(b, send), cutoff)
  {
    var b' := CommitBox(b, send);
    assert b'.days[..b.queueSeq] == b.days;
    forall r | r in b.hold.rows
      ensures r.number > b.queueSeq
    {
      var i :| 0 <= i < |b.hold.rows| && b.hold.rows[i] == r;
    }
  }

  lemma CommitAccounts(b: Box, clock: int, send: nat)
    requires HoldOk(b, clock) && Accounted(b) && b.hold.Open? && b.hold.holder == send
    ensures Accounted(CommitBox(b, send))
  {
    var b' := CommitBox(b, send);
    forall n | 1 <= n <= b'.queueSeq && !b.revoked
      ensures Queued(b', n) || n in b'.acked || n <= b'.prunedThrough
    {
      if n <= b.queueSeq {
        if Queued(b, n) {
          var r :| r in b.rows && r.number == n;
          assert r in b'.rows;
        }
      } else {
        var r := b.hold.rows[n - b.queueSeq - 1];
        assert r in b'.rows;
      }
    }
  }

  lemma AckKeeps(cfg: Config, b: Box, clock: int, cutoff: int, numbers: set<nat>)
    requires BoxOk(cfg, b, clock, cutoff)
    ensures BoxOk(cfg, AckBox(b, numbers), clock, cutoff)
  {
    AckAccounts(b, numbers);
    AckRows(b, numbers);
    AckMarks(b, cutoff, numbers);
    AckRevoked(b, numbers);
    WithoutIs(b.rows, numbers);
  }

  lemma AckRows(b: Box, numbers: set<nat>)
    requires |b.days| == b.queueSeq && RowsOk(b)
    ensures RowsOk(AckBox(b, numbers))
  {
    WithoutIs(b.rows, numbers);
    WithoutAscends(b.rows, numbers);
  }

  lemma AckMarks(b: Box, cutoff: int, numbers: set<nat>)
    requires |b.days| == b.queueSeq && MarkOk(b, cutoff)
    ensures MarkOk(AckBox(b, numbers), cutoff)
  {
    WithoutIs(b.rows, numbers);
    forall r | r in Without(b.rows, numbers)
      ensures r in b.rows
    {
    }
  }

  lemma AckRevoked(b: Box, numbers: set<nat>)
    requires RevokedOk(b)
    ensures RevokedOk(AckBox(b, numbers))
  {
  }

  lemma AckAccounts(b: Box, numbers: set<nat>)
    requires Accounted(b)
    ensures Accounted(AckBox(b, numbers))
  {
    WithoutIs(b.rows, numbers);
    var b' := AckBox(b, numbers);
    forall n | 1 <= n <= b.queueSeq && !b.revoked
      ensures Queued(b', n) || n in b'.acked || n <= b'.prunedThrough
    {
      if Queued(b, n) {
        var r :| r in b.rows && r.number == n;
        if n !in numbers {
          assert r in b'.rows;
        }
      }
    }
  }

  lemma RevokeKeeps(cfg: Config, b: Box, clock: int, cutoff: int)
    requires BoxOk(cfg, b, clock, cutoff) && b.hold.Free?
    ensures BoxOk(cfg, RevokeBox(b), clock, cutoff)
  {
  }

  lemma MeasureKeeps(cfg: Config, b: Box, clock: int, cutoff: int)
    requires BoxOk(cfg, b, clock, cutoff)
    ensures BoxOk(cfg, MeasureBox(b), clock, cutoff)
  {
    if b.mark.Picked? {
      TopIs(b.rows, b.mark.numbers);
    }
  }

  lemma SweepKeeps(cfg: Config, b: Box, clock: int, cutoff: int)
    requires BoxOk(cfg, b, clock, cutoff)
    ensures BoxOk(cfg, SweepBox(b), clock, cutoff)
    ensures SweepBox(b).prunedThrough >= b.prunedThrough
  {
    if b.mark.Topped? {
      WithoutIs(b.rows, b.mark.numbers);
      WithoutAscends(b.rows, b.mark.numbers);
      var b' := SweepBox(b);
      forall n | 1 <= n <= b.queueSeq && !b.revoked
        ensures Queued(b', n) || n in b'.acked || n <= b'.prunedThrough
      {
        if Queued(b, n) {
          var r :| r in b.rows && r.number == n;
          if n !in b.mark.numbers {
            assert r in b'.rows;
          }
        }
      }
    }
  }

  lemma PickKeeps(cfg: Config, b: Box, clock: int, cutoff: int, numbers: set<nat>)
    requires BoxOk(cfg, b, clock, cutoff)
    requires forall n :: n in numbers ==> exists r :: r in b.rows && r.number == n && r.day < cutoff
    ensures BoxOk(cfg, b.(mark := Picked(numbers)), clock, cutoff)
  {
  }

  // The whole store

  predicate AscendingIds(ids: seq<nat>) {
    forall i, j :: 0 <= i < j < |ids| ==> ids[i] < ids[j]
  }

  predicate SendOk(s: Send) {
    match s.phase
    case Locking(at) => at <= |s.wanted| && AscendingIds(s.wanted)
    case Stamping(next) => next <= |s.batch|
  }

  /** Every lock belongs to a send that is where the lock says it is. */
  predicate Backed(cfg: Config, sends: map<nat, Send>, device: nat, b: Box) {
    match b.hold
    case Free => true
    case Locked(k) => k in sends && sends[k].phase.Locking? && sends[k].phase.at <= |sends[k].wanted|
      && device in sends[k].wanted[..sends[k].phase.at]
    case Full(k) => k in sends && sends[k].phase.Stamping?
    case Open(k, held, rows) =>
      && k in sends && sends[k].phase.Stamping? && sends[k].phase.next <= |sends[k].batch|
      && held + Incoming(sends[k].batch, device) <= cfg.limit
      && Continues(rows, b.queueSeq, Sizes(sends[k].batch[..sends[k].phase.next], device))
  }

  predicate BoxesOk(cfg: Config, w: World) {
    forall d :: d in w.boxes ==> BoxOk(cfg, w.boxes[d], w.clock, w.cutoff)
  }

  predicate SendsOk(cfg: Config, w: World) {
    && (forall k :: k in w.sends ==> SendOk(w.sends[k]))
    && (forall d :: d in w.boxes ==> Backed(cfg, w.sends, d, w.boxes[d]))
  }

  predicate WorldOk(cfg: Config, w: World) {
    w.cutoff <= w.clock - cfg.ttl && BoxesOk(cfg, w) && SendsOk(cfg, w)
  }

  lemma StartOk(cfg: Config, today: int)
    ensures WorldOk(cfg, Start(cfg, today))
  {
  }

  // What the sends keep

  lemma {:induction false} InsertIdAscends(id: nat, ids: seq<nat>)
    requires AscendingIds(ids)
    ensures AscendingIds(InsertId(id, ids))
    ensures forall x :: x in InsertId(id, ids) <==> x == id || x in ids
  {
    if ids != [] && id > ids[0] {
      InsertIdAscends(id, ids[1..]);
      assert ids == [ids[0]] + ids[1..];
      var rest := InsertId(id, ids[1..]);
      forall j | 0 <= j < |rest|
        ensures ids[0] < rest[j]
      {
        assert rest[j] in rest;
      }
    } else if ids != [] && id < ids[0] {
      assert forall j :: 0 <= j < |ids| ==> ids[0] <= ids[j];
    }
  }

  /** A send asks for each device it names once, in ascending order. */
  lemma {:induction false} WantedIs(batch: seq<Message>)
    ensures AscendingIds(Wanted(batch))
    ensures forall id :: id in Wanted(batch) <==> exists m :: m in batch && m.device == id
  {
    if batch != [] {
      WantedIs(batch[1..]);
      InsertIdAscends(batch[0].device, Wanted(batch[1..]));
      assert batch == [batch[0]] + batch[1..];
    }
  }

  lemma LockBacked(cfg: Config, w: World, k: nat)
    requires SendsOk(cfg, w) && Enabled(w, Lock(k))
    ensures SendsOk(cfg, Next(cfg, w, Lock(k)))
  {
    var s := w.sends[k];
    assert SendOk(s);
    assert s.wanted[..s.phase.at + 1] == s.wanted[..s.phase.at] + [s.wanted[s.phase.at]];
  }

  lemma SizeBacked(cfg: Config, w: World, k: nat)
    requires SendsOk(cfg, w) && Enabled(w, Size(k))
    ensures SendsOk(cfg, Next(cfg, w, Size(k)))
  {
    var w' := Next(cfg, w, Size(k));
    assert w.sends[k].batch[..0] == [];
    forall d | d in w'.boxes
      ensures Backed(cfg, w'.sends, d, w'.boxes[d])
    {
      assert Backed(cfg, w.sends, d, w.boxes[d]);
    }
  }

  lemma StampBacked(cfg: Config, w: World, k: nat)
    requires SendsOk(cfg, w) && Enabled(w, StampNext(k))
    ensures SendsOk(cfg, Next(cfg, w, StampNext(k)))
  {
    var s := w.sends[k];
    var m := s.batch[s.phase.next];
    var w' := Next(cfg, w, StampNext(k));
    forall d | d in w'.boxes
      ensures Backed(cfg, w'.sends, d, w'.boxes[d])
    {
      assert Backed(cfg, w.sends, d, w.boxes[d]);
      StampBackedBox(cfg, w.sends, k, d, w.boxes[d], w.clock);
    }
  }

  lemma StampBackedBox(cfg: Config, sends: map<nat, Send>, k: nat, d: nat, b: Box, clock: int)
    requires Backed(cfg, sends, d, b) && k in sends && sends[k].phase.Stamping?
    requires sends[k].phase.next < |sends[k].batch|
    ensures var s := sends[k];
      var m := s.batch[s.phase.next];
      Backed(cfg, sends[k := s.(phase := Stamping(s.phase.next + 1))], d,
             if m.device == d then StampBox(b, k, m.size, clock) else b)
  {
    var s := sends[k];
    var m := s.batch[s.phase.next];
    assert s.batch[..s.phase.next + 1] == s.batch[..s.phase.next] + [m];
    SizesAppend(s.batch[..s.phase.next], m, d);
  }

  lemma FinishBacked(cfg: Config, w: World, k: nat, e: Event)
    requires SendsOk(cfg, w) && (e == Commit(k) || e == Abort(k))
    ensures SendsOk(cfg, Next(cfg, w, e))
  {
    var w' := Next(cfg, w, e);
    forall d | d in w'.boxes
      ensures Backed(cfg, w'.sends, d, w'.boxes[d])
    {
      assert Backed(cfg, w.sends, d, w.boxes[d]);
    }
  }

  lemma OtherBacked(cfg: Config, w: World, e: Event)
    requires SendsOk(cfg, w) && !e.Lock? && !e.Size? && !e.StampNext? && !e.Commit? && !e.Abort? && !e.Begin?
    ensures SendsOk(cfg, Next(cfg, w, e))
  {
    var w' := Next(cfg, w, e);
    forall d | d in w'.boxes
      ensures Backed(cfg, w'.sends, d, w'.boxes[d])
    {
      assert d in w.boxes ==> Backed(cfg, w.sends, d, w.boxes[d]);
    }
  }

  lemma BeginBacked(cfg: Config, w: World, k: nat, batch: seq<Message>)
    requires SendsOk(cfg, w) && Enabled(w, Begin(k, batch))
    ensures SendsOk(cfg, Next(cfg, w, Begin(k, batch)))
  {
    WantedIs(batch);
    var w' := Next(cfg, w, Begin(k, batch));
    forall d | d in w'.boxes
      ensures Backed(cfg, w'.sends, d, w'.boxes[d])
    {
      assert Backed(cfg, w.sends, d, w.boxes[d]);
    }
  }

  lemma SendsNext(cfg: Config, w: World, e: Event)
    requires SendsOk(cfg, w)
    ensures SendsOk(cfg, Next(cfg, w, e))
  {
    if Enabled(w, e) {
      match e
      case Begin(k, batch) => BeginBacked(cfg, w, k, batch);
      case Lock(k) => LockBacked(cfg, w, k);
      case Size(k) => SizeBacked(cfg, w, k);
      case StampNext(k) => StampBacked(cfg, w, k);
      case Commit(k) => FinishBacked(cfg, w, k, e);
      case Abort(k) => FinishBacked(cfg, w, k, e);
      case _ => OtherBacked(cfg, w, e);
    }
  }

  // What every mailbox keeps

  /** What the open sends have stamped still fits. */
  lemma StampedFits(cfg: Config, sends: map<nat, Send>, device: nat, b: Box)
    requires Backed(cfg, sends, device, b) && b.hold.Open?
    ensures b.hold.held + Total(b.hold.rows) <= cfg.limit
  {
    var s := sends[b.hold.holder];
    TotalOfSizes(b.hold.rows, b.queueSeq, Sizes(s.batch[..s.phase.next], device));
    IncomingPrefix(s.batch, s.phase.next, device);
  }

  lemma LockBox(cfg: Config, b: Box, clock: int, cutoff: int, k: nat)
    requires BoxOk(cfg, b, clock, cutoff) && !b.revoked && b.hold.Free?
    ensures BoxOk(cfg, b.(hold := Locked(k)), clock, cutoff)
  {
  }

  lemma SizeKeeps(cfg: Config, b: Box, clock: int, cutoff: int, k: nat, batch: seq<Message>, device: nat)
    requires BoxOk(cfg, b, clock, cutoff)
    ensures BoxOk(cfg, SizeBox(cfg, b, k, batch, device), clock, cutoff)
  {
    if b.hold == Locked(k) {
      OpenHold(b.(hold := Open(k, Total(b.rows), [])), clock);
      RehaveBox(cfg, b, clock, cutoff, Open(k, Total(b.rows), []));
      RehaveBox(cfg, b, clock, cutoff, Full(k));
    }
  }

  /** A lock changes hands without touching anything else. */
  lemma RehaveBox(cfg: Config, b: Box, clock: int, cutoff: int, hold: Hold)
    requires BoxOk(cfg, b, clock, cutoff) && HoldOk(b.(hold := hold), clock) && (b.revoked ==> hold.Free?)
    ensures BoxOk(cfg, b.(hold := hold), clock, cutoff)
  {
  }

  lemma OpenHold(b: Box, clock: int)
    requires HistoryOk(b, clock) && b.hold.Open? && b.hold.rows == [] && b.hold.held == Total(b.rows)
    ensures HoldOk(b, clock)
  {
    assert b.days + Days([]) == b.days;
  }

  lemma ReleaseKeeps(cfg: Config, b: Box, clock: int, cutoff: int, k: nat)
    requires BoxOk(cfg, b, clock, cutoff)
    ensures BoxOk(cfg, ReleaseBox(b, k), clock, cutoff)
  {
  }

  lemma ActiveKeeps(cfg: Config, b: Box, clock: int, cutoff: int, active: bool)
    requires BoxOk(cfg, b, clock, cutoff)
    ensures BoxOk(cfg, b.(active := active), clock, cutoff)
  {
  }

  lemma UnmarkKeeps(cfg: Config, b: Box, clock: int, cutoff: int)
    requires BoxOk(cfg, b, clock, cutoff)
    ensures BoxOk(cfg, b.(mark := Unmarked), clock, cutoff)
  {
  }

  /** A mailbox after an event: in order, and its mark no lower. */
  predicate KeptBox(cfg: Config, w: World, w': World, d: nat)
    requires d in w.boxes
  {
    d in w'.boxes && BoxOk(cfg, w'.boxes[d], w'.clock, w'.cutoff)
      && w'.boxes[d].prunedThrough >= w.boxes[d].prunedThrough
  }

  lemma LockNext(cfg: Config, w: World, k: nat, d: nat)
    requires WorldOk(cfg, w) && Enabled(w, Lock(k)) && d in w.boxes
    ensures KeptBox(cfg, w, Next(cfg, w, Lock(k)), d)
  {
    var b := w.boxes[d];
    if b.hold.Free? && !b.revoked {
      LockBox(cfg, b, w.clock, w.cutoff, k);
    }
  }

  lemma SizeNext(cfg: Config, w: World, k: nat, d: nat)
    requires WorldOk(cfg, w) && Enabled(w, Size(k)) && d in w.boxes
    ensures KeptBox(cfg, w, Next(cfg, w, Size(k)), d)
  {
    SizeKeeps(cfg, w.boxes[d], w.clock, w.cutoff, k, w.sends[k].batch, d);
  }

  lemma StampNextKeeps(cfg: Config, w: World, k: nat, d: nat)
    requires WorldOk(cfg, w) && Enabled(w, StampNext(k)) && d in w.boxes
    ensures KeptBox(cfg, w, Next(cfg, w, StampNext(k)), d)
  {
    StampKeeps(cfg, w.boxes[d], w.clock, w.cutoff, k, w.sends[k].batch[w.sends[k].phase.next].size);
  }

  lemma CommitNext(cfg: Config, w: World, k: nat, d: nat)
    requires WorldOk(cfg, w) && Enabled(w, Commit(k)) && d in w.boxes
    ensures KeptBox(cfg, w, Next(cfg, w, Commit(k)), d)
  {
    if w.boxes[d].hold.Open? {
      StampedFits(cfg, w.sends, d, w.boxes[d]);
    }
    CommitKeeps(cfg, w.boxes[d], w.clock, w.cutoff, k);
  }

  lemma AckNext(cfg: Config, w: World, device: nat, numbers: set<nat>, d: nat)
    requires WorldOk(cfg, w) && Enabled(w, Ack(device, numbers)) && d in w.boxes
    ensures KeptBox(cfg, w, Next(cfg, w, Ack(device, numbers)), d)
  {
    AckKeeps(cfg, w.boxes[d], w.clock, w.cutoff, numbers);
  }

  lemma RevokeNext(cfg: Config, w: World, device: nat, d: nat)
    requires WorldOk(cfg, w) && Enabled(w, Revoke(device)) && d in w.boxes
    ensures KeptBox(cfg, w, Next(cfg, w, Revoke(device)), d)
  {
    if w.boxes[d].hold.Free? {
      RevokeKeeps(cfg, w.boxes[d], w.clock, w.cutoff);
    }
  }

  lemma ClientNext(cfg: Config, w: World, e: Event, d: nat)
    requires WorldOk(cfg, w) && Enabled(w, e) && d in w.boxes
    requires e.Register? || e.SetActive? || e.Tick? || e.Begin? || e.Abort?
    ensures KeptBox(cfg, w, Next(cfg, w, e), d)
  {
    var b := w.boxes[d];
    assert BoxOk(cfg, b, w.clock, w.cutoff);
    match e
    case SetActive(_, active) => ActiveKeeps(cfg, b, w.clock, w.cutoff, active);
    case Tick => TimePasses(cfg, b, w.clock, w.cutoff, w.clock + 1, w.cutoff);
    case Abort(k) => ReleaseKeeps(cfg, b, w.clock, w.cutoff, k);
    case _ =>
  }

  lemma SweepNext(cfg: Config, w: World, e: Event, d: nat)
    requires WorldOk(cfg, w) && Enabled(w, e) && d in w.boxes
    requires e.SweepStart? || e.SweepSelect? || e.SweepMeasure? || e.SweepCommit? || e.SweepFail? || e.SweepReturn?
    ensures KeptBox(cfg, w, Next(cfg, w, e), d)
  {
    var b := w.boxes[d];
    match e
    case SweepStart => TimePasses(cfg, b, w.clock, w.cutoff, w.clock, w.clock - cfg.ttl);
    case SweepSelect(keys) => SelectKeeps(cfg, w, keys, d);
    case SweepMeasure => MeasureKeeps(cfg, b, w.clock, w.cutoff);
    case SweepCommit => SweepKeeps(cfg, b, w.clock, w.cutoff);
    case SweepFail => UnmarkKeeps(cfg, b, w.clock, w.cutoff);
    case _ =>
  }

  lemma BoxNext(cfg: Config, w: World, e: Event, d: nat)
    requires WorldOk(cfg, w) && Enabled(w, e) && d in w.boxes
    ensures KeptBox(cfg, w, Next(cfg, w, e), d)
  {
    match e
    case Lock(k) => LockNext(cfg, w, k, d);
    case Size(k) => SizeNext(cfg, w, k, d);
    case StampNext(k) => StampNextKeeps(cfg, w, k, d);
    case Commit(k) => CommitNext(cfg, w, k, d);
    case SweepStart => SweepNext(cfg, w, e, d);
    case SweepSelect(_) => SweepNext(cfg, w, e, d);
    case SweepMeasure => SweepNext(cfg, w, e, d);
    case SweepCommit => SweepNext(cfg, w, e, d);
    case SweepFail => SweepNext(cfg, w, e, d);
    case SweepReturn => SweepNext(cfg, w, e, d);
    case Ack(device, numbers) => AckNext(cfg, w, device, numbers, d);
    case Revoke(device) => RevokeNext(cfg, w, device, d);
    case _ => ClientNext(cfg, w, e, d);
  }

  lemma SelectKeeps(cfg: Config, w: World, keys: set<Key>, d: nat)
    requires BoxesOk(cfg, w) && d in w.boxes && forall key :: key in keys ==> Expired(w, key)
    ensures BoxOk(cfg, w.boxes[d].(mark := Picked(NumbersFor(keys, d))), w.clock, w.cutoff)
  {
    forall n | n in NumbersFor(keys, d)
      ensures exists r :: r in w.boxes[d].rows && r.number == n && r.day < w.cutoff
    {
      assert Expired(w, Key(d, n));
    }
    PickKeeps(cfg, w.boxes[d], w.clock, w.cutoff, NumbersFor(keys, d));
  }

  lemma WorldNext(cfg: Config, w: World, e: Event)
    requires WorldOk(cfg, w)
    ensures WorldOk(cfg, Next(cfg, w, e))
    ensures forall d :: d in w.boxes ==>
      d in Next(cfg, w, e).boxes && Next(cfg, w, e).boxes[d].prunedThrough >= w.boxes[d].prunedThrough
  {
    SendsNext(cfg, w, e);
    if Enabled(w, e) {
      forall d | d in w.boxes
        ensures KeptBox(cfg, w, Next(cfg, w, e), d)
      {
        BoxNext(cfg, w, e, d);
      }
      NewBoxes(cfg, w, e);
    }
  }

  lemma NewBoxes(cfg: Config, w: World, e: Event)
    requires Enabled(w, e) && w.cutoff <= w.clock - cfg.ttl
    ensures forall d :: d in Next(cfg, w, e).boxes && d !in w.boxes ==>
      BoxOk(cfg, Next(cfg, w, e).boxes[d], w.clock, w.cutoff)
    ensures Next(cfg, w, e).cutoff <= Next(cfg, w, e).clock - cfg.ttl
    ensures (exists d :: d in Next(cfg, w, e).boxes && d !in w.boxes) ==>
      Next(cfg, w, e).clock == w.clock && Next(cfg, w, e).cutoff == w.cutoff
  {
  }

  lemma {:induction false} RunOk(cfg: Config, w: World, events: seq<Event>)
    requires WorldOk(cfg, w)
    ensures WorldOk(cfg, Run(cfg, w, events))
    ensures forall d :: d in w.boxes ==>
      d in Run(cfg, w, events).boxes && Run(cfg, w, events).boxes[d].prunedThrough >= w.boxes[d].prunedThrough
    decreases |events|
  {
    if events != [] {
      WorldNext(cfg, w, events[0]);
      RunOk(cfg, Next(cfg, w, events[0]), events[1..]);
    }
  }

  lemma {:induction false} RunAppend(cfg: Config, w: World, a: seq<Event>, b: seq<Event>)
    ensures Run(cfg, w, a + b) == Run(cfg, Run(cfg, w, a), b)
    decreases |a|
  {
    if a == [] {
      assert a + b == b;
    } else {
      RunAppend(cfg, Next(cfg, w, a[0]), a[1..], b);
      assert (a + b)[1..] == a[1..] + b;
    }
  }
}
