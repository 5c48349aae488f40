/** The durable mailboxes as a transition system: sends under row locks, acknowledgements,
    revocations, and the separate statements of the retention sweep, interleaved in any order
    (messaging/services.py, messaging/management/commands/prune.py, devices/services.py).

    A send takes its device rows one at a time in ascending id order and holds them to commit; its
    rows become visible when it commits. Row ids are drawn at random and never repeat, so a row is
    named here by its device and number. */
module Mailbox {
  import opened MailboxSend

  /** `MAILBOX_MAX_BYTES` and `ENVELOPE_TTL_DAYS`. */
  datatype Config = Config(limit: nat, ttl: nat)

  /** The row lock of a device and what the send holding it has prepared. */
  datatype Hold =
    | Free
    | Locked(holder: nat)
    | Full(holder: nat)
    | Open(holder: nat, held: nat, rows: seq<Row>)

  /** What the sweep's open transaction knows about a device: the rows it selected, then the highest
      number among those still there (0 for none). */
  datatype Mark =
    | Unmarked
    | Picked(numbers: set<nat>)
    | Topped(numbers: set<nat>, top: nat)

  /** A device row and its queue. `days` and `acked` are history: the day stamped on each number ever
      assigned, and the numbers the device itself deleted. */
  datatype Box = Box(
    revoked: bool,
    active: bool,
    queueSeq: nat,
    prunedThrough: nat,
    rows: seq<Row>,
    hold: Hold,
    mark: Mark,
    days: seq<int>,
    acked: set<nat>)

  datatype Phase = Locking(at: nat) | Stamping(next: nat)

  datatype Send = Send(batch: seq<Message>, wanted: seq<nat>, phase: Phase)

  datatype Sweep = Idle | Ready | Selected | Measured

  datatype World = World(boxes: map<nat, Box>, sends: map<nat, Send>, clock: int, sweep: Sweep, cutoff: int)

  datatype Key = Key(device: nat, number: nat)

  datatype Event =
    | Register(device: nat)
    | SetActive(device: nat, active: bool)
    | Tick
    | Begin(send: nat, batch: seq<Message>)
    | Lock(send: nat)
    | Size(send: nat)
    | StampNext(send: nat)
    | Commit(send: nat)
    | Abort(send: nat)
    | Ack(device: nat, numbers: set<nat>)
    | Revoke(device: nat)
    | SweepStart
    | SweepSelect(keys: set<Key>)
    | SweepMeasure
    | SweepCommit
    | SweepFail
    | SweepReturn

  // Rows

  function Total(rows: seq<Row>): nat {
    if rows == [] then 0 else Total(rows[..|rows| - 1]) + rows[|rows| - 1].size
  }

  function Without(rows: seq<Row>, numbers: set<nat>): seq<Row> {
    if rows == [] then []
    else
      var front, last := Without(rows[..|rows| - 1], numbers), rows[|rows| - 1];
      if last.number in numbers then front else front + [last]
  }

  /** The highest number among the rows in a set, 0 if none is. */
  function Top(rows: seq<Row>, numbers: set<nat>): nat {
    if rows == [] then 0
    else
      var front, last := Top(rows[..|rows| - 1], numbers), rows[|rows| - 1];
      if last.number in numbers && last.number > front then last.number else front
  }

  function Days(rows: seq<Row>): seq<int> {
    seq(|rows|, i requires 0 <= i < |rows| => rows[i].day)
  }

  // One device under each operation

  predicate HeldBy(h: Hold, send: nat) {
    !h.Free? && h.holder == send
  }

  function SizeBox(cfg: Config, b: Box, send: nat, batch: seq<Message>, device: nat): Box {
    if b.hold != Locked(send) then b
    else if Total(b.rows) + Incoming(batch, device) > cfg.limit then b.(hold := Full(send))
    else b.(hold := Open(send, Total(b.rows), []))
  }

  function StampBox(b: Box, send: nat, size: nat, clock: int): Box {
    if b.hold.Open? && b.hold.holder == send
    then b.(hold := b.hold.(rows := b.hold.rows + [Row(b.queueSeq + |b.hold.rows| + 1, size, clock)]))
    else b
  }

  function ReleaseBox(b: Box, send: nat): Box {
    if HeldBy(b.hold, send) then b.(hold := Free) else b
  }

  function CommitBox(b: Box, send: nat): Box {
    if b.hold.Open? && b.hold.holder == send
    then b.(queueSeq := b.queueSeq + |b.hold.rows|, rows := b.rows + b.hold.rows, days := b.days + Days(b.hold.rows),
            hold := Free)
    else ReleaseBox(b, send)
  }

  function AckBox(b: Box, numbers: set<nat>): Box {
    b.(rows := Without(b.rows, numbers), acked := b.acked + set r | r in b.rows && r.number in numbers :: r.number)
  }

  function RevokeBox(b: Box): Box {
    b.(revoked := true, rows := [])
  }

  function MeasureBox(b: Box): Box {
    if b.mark.Picked? then b.(mark := Topped(b.mark.numbers, Top(b.rows, b.mark.numbers))) else b
  }

  /** Watermark and delete, in one transaction. */
  function SweepBox(b: Box): Box {
    if b.mark.Topped?
    then b.(prunedThrough := if b.mark.top > b.prunedThrough then b.mark.top else b.prunedThrough,
            rows := Without(b.rows, b.mark.numbers), mark := Unmarked)
    else b
  }

  // The transition system

  predicate Live(b: Box) {
    !b.revoked && b.active
  }

  /** The ids a batch names, ascending and each once. */
  function Wanted(batch: seq<Message>): seq<nat> {
    if batch == [] then [] else InsertId(batch[0].device, Wanted(batch[1..]))
  }

  function InsertId(id: nat, ids: seq<nat>): seq<nat> {
    if ids == [] || id < ids[0] then [id] + ids
    else if id == ids[0] then ids
    else [ids[0]] + InsertId(id, ids[1..])
  }

  predicate Expired(w: World, key: Key) {
    key.device in w.boxes && exists r :: r in w.boxes[key.device].rows && r.number == key.number && r.day < w.cutoff
  }

  function NumbersFor(keys: set<Key>, device: nat): set<nat> {
    set key | key in keys && key.device == device :: key.number
  }

  predicate Enabled(w: World, e: Event) {
    match e
    case Register(device) => device !in w.boxes
    case SetActive(device, _) => device in w.boxes
    case Tick => true
    case Begin(send, _) => send !in w.sends
    case Lock(send) =>
      && send in w.sends && w.sends[send].phase.Locking? && w.sends[send].phase.at < |w.sends[send].wanted|
      && var device := w.sends[send].wanted[w.sends[send].phase.at];
         device in w.boxes && Live(w.boxes[device]) ==> w.boxes[device].hold.Free?
    case Size(send) => send in w.sends && w.sends[send].phase.Locking?
      && w.sends[send].phase.at == |w.sends[send].wanted|
    case StampNext(send) => send in w.sends && w.sends[send].phase.Stamping?
      && w.sends[send].phase.next < |w.sends[send].batch|
    case Commit(send) => send in w.sends && w.sends[send].phase.Stamping?
      && w.sends[send].phase.next == |w.sends[send].batch|
    case Abort(send) => send in w.sends
    case Ack(device, _) => device in w.boxes
    case Revoke(device) => device in w.boxes && !w.boxes[device].revoked && w.boxes[device].hold.Free?
    case SweepStart => w.sweep.Idle?
    case SweepSelect(keys) => w.sweep.Ready? && keys != {} && forall key :: key in keys ==> Expired(w, key)
    case SweepMeasure => w.sweep.Selected?
    case SweepCommit => w.sweep.Measured?
    case SweepFail => !w.sweep.Idle?
    case SweepReturn =>
      w.sweep.Ready? && forall d :: d in w.boxes ==> forall r :: r in w.boxes[d].rows ==> r.day >= w.cutoff
  }

  /** The world after an event; an event that is not enabled does nothing. */
  function Next(cfg: Config, w: World, e: Event): World {
    if !Enabled(w, e) then w else Effect(cfg, w, e)
  }

  function Effect(cfg: Config, w: World, e: Event): World
    requires Enabled(w, e)
  {
    match e
    case Register(device) => w.(boxes := w.boxes[device := Box(false, true, 0, 0, [], Free, Unmarked, [], {})])
    case SetActive(device, active) => w.(boxes := w.boxes[device := w.boxes[device].(active := active)])
    case Tick => w.(clock := w.clock + 1)
    case Begin(send, batch) => w.(sends := w.sends[send := Send(batch, Wanted(batch), Locking(0))])
    case Lock(send) =>
      var s := w.sends[send];
      var device := s.wanted[s.phase.at];
      var w1 := w.(sends := w.sends[send := s.(phase := Locking(s.phase.at + 1))]);
      if device in w.boxes && Live(w.boxes[device])
      then w1.(boxes := w.boxes[device := w.boxes[device].(hold := Locked(send))])
      else w1
    case Size(send) =>
      var s := w.sends[send];
      w.(sends := w.sends[send := s.(phase := Stamping(0))],
         boxes := map d | d in w.boxes :: SizeBox(cfg, w.boxes[d], send, s.batch, d))
    case StampNext(send) =>
      var s := w.sends[send];
      var m := s.batch[s.phase.next];
      var w1 := w.(sends := w.sends[send := s.(phase := Stamping(s.phase.next + 1))]);
      if m.device in w.boxes
      then w1.(boxes := w.boxes[m.device := StampBox(w.boxes[m.device], send, m.size, w.clock)])
      else w1
    case Commit(send) =>
      w.(sends := w.sends - {send}, boxes := map d | d in w.boxes :: CommitBox(w.boxes[d], send))
    case Abort(send) =>
      w.(sends := w.sends - {send}, boxes := map d | d in w.boxes :: ReleaseBox(w.boxes[d], send))
    case Ack(device, numbers) => w.(boxes := w.boxes[device := AckBox(w.boxes[device], numbers)])
    case Revoke(device) => w.(boxes := w.boxes[device := RevokeBox(w.boxes[device])])
    case SweepStart => w.(sweep := Ready, cutoff := w.clock - cfg.ttl)
    case SweepSelect(keys) =>
      w.(sweep := Selected, boxes := map d | d in w.boxes :: w.boxes[d].(mark := Picked(NumbersFor(keys, d))))
    case SweepMeasure => w.(sweep := Measured, boxes := map d | d in w.boxes :: MeasureBox(w.boxes[d]))
    case SweepCommit => w.(sweep := Ready, boxes := map d | d in w.boxes :: SweepBox(w.boxes[d]))
    case SweepFail => w.(sweep := Idle, boxes := map d | d in w.boxes :: w.boxes[d].(mark := Unmarked))
    case SweepReturn => w.(sweep := Idle)
  }

  function Start(cfg: Config, today: int): World {
    World(map[], map[], today, Idle, today - cfg.ttl)
  }

  function Run(cfg: Config, w: World, events: seq<Event>): World
    decreases |events|
  {
    if events == [] then w else Run(cfg, Next(cfg, w, events[0]), events[1..])
  }
}
