/** The append-only device-list log and its keyset-paged reads (`append_log` and `peer_log` of
    devices/services.py, `page_bounds` of devices/schemas.py). */
module DeviceLog {
  import opened Bytes

  const PAGE_CAP: int := 200

  datatype Record = Record(number: int, blob: bytes)

  /** The stored rows of one account, in no particular order as far as the queries know. */
  type Table = seq<Record>

  // Appending

  /** `Max("seq")`, with -1 for an empty log. */
  function MaxNumber(log: Table): int {
    if log == [] then -1
    else
      var rest := MaxNumber(log[..|log| - 1]);
      if log[|log| - 1].number > rest then log[|log| - 1].number else rest
  }

  function Numbered(start: int, blobs: seq<bytes>): Table {
    seq(|blobs|, i requires 0 <= i < |blobs| => Record(start + i, blobs[i]))
  }

  /** `append_log`, one unit under the account's row lock: refused whole when the ceiling would be
      passed. */
  function Append(log: Table, blobs: seq<bytes>, ceiling: nat): Table {
    var start := MaxNumber(log) + 1;
    if start + |blobs| > ceiling then log else log + Numbered(start, blobs)
  }

  /** The numbers are exactly 0..n-1. */
  predicate Contiguous(log: Table) {
    forall i :: 0 <= i < |log| ==> log[i].number == i
  }

  predicate LogOk(log: Table, ceiling: nat) {
    Contiguous(log) && |log| <= ceiling
  }

  lemma MaxIsLast(log: Table)
    requires Contiguous(log)
    ensures MaxNumber(log) == |log| - 1
  {
  }

  lemma AppendKeeps(log: Table, blobs: seq<bytes>, ceiling: nat)
    requires LogOk(log, ceiling)
    ensures LogOk(Append(log, blobs, ceiling), ceiling) && log <= Append(log, blobs, ceiling)
    ensures |log| + |blobs| <= ceiling <==> Append(log, blobs, ceiling) == log + Numbered(|log|, blobs)
  {
    MaxIsLast(log);
  }

  function AppendAll(log: Table, appends: seq<seq<bytes>>, ceiling: nat): Table
    decreases |appends|
  {
    if appends == [] then log else AppendAll(Append(log, appends[0], ceiling), appends[1..], ceiling)
  }

  /** Appends keep the numbers exactly 0..n-1 with n at most the ceiling, and change no record. */
  lemma {:induction false} AppendsKeep(log: Table, appends: seq<seq<bytes>>, ceiling: nat)
    requires LogOk(log, ceiling)
    ensures LogOk(AppendAll(log, appends, ceiling), ceiling) && log <= AppendAll(log, appends, ceiling)
    decreases |appends|
  {
    if appends != [] {
      AppendKeeps(log, appends[0], ceiling);
      AppendsKeep(Append(log, appends[0], ceiling), appends[1..], ceiling);
    }
  }

  // One page

  /** What a query string holds: an integer, or nothing `int()` accepts. */
  datatype Text = Number(value: int) | Junk

  function AsInt(t: Text, fallback: int): int {
    if t.Number? then t.value else fallback
  }

  function Min(a: int, b: int): int {
    if a <= b then a else b
  }

  function Max(a: int, b: int): int {
    if a >= b then a else b
  }

  /** `page_bounds`: a junk cursor is before the first record; a limit in range is kept, one below it
      is 1, and one above it or junk is the cap. */
  function PageBounds(after: Text, limit: Text): (r: (int, int))
    ensures 1 <= r.1 <= PAGE_CAP && (after == Junk || after == Number(r.0)) && (after == Junk ==> r.0 == -1)
    ensures limit != Junk && limit.value <= PAGE_CAP ==> r.1 == limit.value || limit.value < r.1 == 1
    ensures limit == Junk || limit.value > PAGE_CAP ==> r.1 == PAGE_CAP
  {
    (AsInt(after, -1), Max(1, Min(AsInt(limit, PAGE_CAP), PAGE_CAP)))
  }

  function Above(log: Table, after: int): Table {
    if log == [] then []
    else
      var front := Above(log[..|log| - 1], after);
      if log[|log| - 1].number > after then front + [log[|log| - 1]] else front
  }

  function Insert(r: Record, rows: Table): Table {
    if rows == [] || r.number <= rows[0].number then [r] + rows else [rows[0]] + Insert(r, rows[1..])
  }

  /** `order_by("seq")`. */
  function Ordered(rows: Table): Table {
    if rows == [] then [] else Insert(rows[0], Ordered(rows[1..]))
  }

  function Take(rows: Table, n: nat): Table {
    if |rows| <= n then rows else rows[..n]
  }

  datatype Page = Page(records: Table, hasMore: bool, head: Option<int>)

  /** `Max("seq")` as it is answered, nothing for an empty log. */
  function Head(log: Table): Option<int> {
    if log == [] then None else Some(MaxNumber(log))
  }

  /** `peer_log`. */
  function PeerLog(log: Table, after: int, limit: nat): Page {
    PageOf(Take(Ordered(Above(log, after)), limit + 1), limit, Head(log))
  }

  function PageOf(rows: Table, limit: nat, head: Option<int>): Page {
    Page(Take(rows, limit), |rows| > limit, head)
  }

  lemma {:induction false} OrderedIsFixed(rows: Table, first: int)
    requires forall i :: 0 <= i < |rows| ==> rows[i].number == first + i
    ensures Ordered(rows) == rows
  {
    if rows != [] {
      OrderedIsFixed(rows[1..], first + 1);
      assert rows == [rows[0]] + rows[1..];
    }
  }

  /** The record the page after a cursor starts with. */
  function From(after: int): nat {
    if after < -1 then 0 else after + 1
  }

  lemma DropFront(log: Table, k: nat)
    requires k < |log|
    ensures log[k..] == log[..|log| - 1][k..] + [log[|log| - 1]]
  {
  }

  lemma {:induction false} AboveIsSuffix(log: Table, after: int)
    requires Contiguous(log)
    ensures Above(log, after) == if From(after) <= |log| then log[From(after)..] else []
  {
    if log != [] {
      var front, last := log[..|log| - 1], log[|log| - 1];
      AboveIsSuffix(front, after);
      assert last.number == |log| - 1;
      if From(after) <= |front| {
        DropFront(log, From(after));
      } else if From(after) == |log| {
        assert log[From(after)..] == [];
      }
    }
  }

  /** A page is the next stretch of the log, as long as the limit allows, and says truly whether
      anything follows it and what the last number of the whole log is. */
  lemma PageIsSlice(log: Table, after: int, limit: nat)
    requires Contiguous(log)
    ensures var page, start := PeerLog(log, after, limit), From(after);
      && page.head == (if log == [] then None else Some(|log| - 1))
      && page.records == (if start + limit < |log| then log[start..start + limit]
                          else if start <= |log| then log[start..] else [])
      && (page.hasMore <==> start + limit < |log|)
  {
    MaxIsLast(log);
    var rows := if From(after) <= |log| then log[From(after)..] else [];
    assert Ordered(Above(log, after)) == rows by {
      AboveIsSuffix(log, after);
      OrderedIsFixed(rows, From(after));
    }
    OneRowAhead(rows, limit, Head(log));
    if From(after) + limit < |log| {
      SliceOfSuffix(log, From(after), limit);
    }
  }

  /** Reading one row past the limit tells whether there is more, and changes no page. */
  lemma OneRowAhead(rows: Table, limit: nat, head: Option<int>)
    ensures PageOf(Take(rows, limit + 1), limit, head) == Page(Take(rows, limit), |rows| > limit, head)
  {
  }

  lemma SliceOfSuffix(log: Table, start: nat, limit: nat)
    requires start + limit <= |log|
    ensures log[start..][..limit] == log[start..start + limit]
  {
  }

  // The walk

  /** Adding the page after a prefix of the log to that prefix. */
  lemma PageExtends(log: Table, collected: Table, after: int, limit: nat)
    requires Contiguous(log) && collected <= log && From(after) == |collected| && limit >= 1
    ensures var page := PeerLog(log, after, limit);
      && collected + page.records <= log
      && (if page.hasMore then |collected| < |collected + page.records| < |log| else collected + page.records == log)
  {
    PageIsSlice(log, after, limit);
    assert log == log[..|collected|] + log[|collected|..];
    if |collected| + limit < |log| {
      assert log[..|collected| + limit] == collected + log[|collected|..|collected| + limit];
    }
  }

  /** The log after the appends that ran before the first `requests` requests. */
  function LogAt(log: Table, appends: nat -> seq<seq<bytes>>, requests: nat, ceiling: nat): Table {
    if requests == 0 then log else AppendAll(LogAt(log, appends, requests - 1, ceiling), appends(requests - 1), ceiling)
  }

  lemma {:induction false} LogAtGrows(log: Table, appends: nat -> seq<seq<bytes>>, requests: nat, ceiling: nat)
    requires LogOk(log, ceiling)
    ensures LogOk(LogAt(log, appends, requests, ceiling), ceiling) && log <= LogAt(log, appends, requests, ceiling)
  {
    if requests > 0 {
      LogAtGrows(log, appends, requests - 1, ceiling);
      AppendsKeep(LogAt(log, appends, requests - 1, ceiling), appends(requests - 1), ceiling);
    }
  }

  /** A client following the log from the start: each page asked for from the last number of the one
      before, with any limits, while others append between the requests. It ends, and what it
      collected is exactly the log as it stood when the last page was read: what was there when it
      began and every record appended before that page, in order, without a gap or a repeat. */
  method Walk(log: Table, ceiling: nat, limits: nat -> Text, appends: nat -> seq<seq<bytes>>)
    returns (collected: Table, requests: nat)
    requires LogOk(log, ceiling)
    ensures requests >= 1 && collected == LogAt(log, appends, requests, ceiling)
    ensures LogOk(collected, ceiling) && log <= collected
  {
    collected, requests := [], 0;
    var current := log;
    var cursor := Junk;
    while true
      invariant current == LogAt(log, appends, requests, ceiling) && collected <= current
      invariant cursor == if collected == [] then Junk else Number(|collected| - 1)
      invariant LogOk(current, ceiling)
      decreases ceiling - |collected|
    {
      AppendsKeep(current, appends(requests), ceiling);
      current := AppendAll(current, appends(requests), ceiling);
      var (after, limit) := PageBounds(cursor, limits(requests));
      requests := requests + 1;
      var page := PeerLog(current, after, limit);
      PageExtends(current, collected, after, limit);
      collected := collected + page.records;
      if !page.hasMore {
        LogAtGrows(log, appends, requests, ceiling);
        return;
      }
      cursor := Number(collected[|collected| - 1].number);
    }
  }
}
