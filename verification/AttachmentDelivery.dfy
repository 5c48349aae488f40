/** Delivery, end to end: the ciphertexts a push returned, shown in order to a pull of the same stream
    and header, come back as the plaintexts pushed, and the pull knows the last one for the last
    (`push_chunk`, `pull_chunk` and `close_session` of attachment.rs). */
module AttachmentDelivery {
  import opened Bytes
  import opened AttachmentSizes
  import opened Attachment
  import opened AttachmentRuns
  import opened AttachmentFinish
  import opened AttachmentOpening
  import AttachmentSessions

  /** What is asked of the cipher: it opens what it sealed, finality included. */
  ghost predicate Opens(c: Cipher) {
    forall id, i, header, plaintext, final ::
      c.open(id, i, header, c.seal(id, i, header, plaintext, final)) == Some((plaintext, final))
  }

  /** Neither demand on the cipher rules the other out. */
  lemma SomeCipher() returns (c: Cipher)
    ensures Expands(c) && Opens(c)
  {
    c := Cipher((id, i, h, p, f) => seq(ABYTES, _ => if f then 1 else 0) + p,
                (id, i, h, s: bytes) => if |s| < ABYTES then None else Some((s[ABYTES..], s[0] == 1)));
    forall id, i, h, p, f
      ensures |c.seal(id, i, h, p, f)| == |p| + ABYTES
      ensures c.open(id, i, h, c.seal(id, i, h, p, f)) == Some((p, f))
    {
      var s: bytes := c.seal(id, i, h, p, f);
      assert s == seq(ABYTES, _ => if f then 1 else 0) + p;
      assert s[ABYTES..] == p;
    }
  }

  // What the sender did

  /** An accepted push, and the ciphertext it returned. */
  datatype Sealed = Sealed(ciphertext: bytes, plaintext: bytes, final: bool)

  function SealedBy(c: Cipher, w: World, e: Event, id: StreamId): seq<Sealed> {
    if e.Pushing? && e.handle in w.table && w.table[e.handle].stream == id
       && PushChunk(c, w.table, e.handle, e.final, e.plaintext).result.Ok?
    then [Sealed(PushChunk(c, w.table, e.handle, e.final, e.plaintext).result.value, e.plaintext, e.final)]
    else []
  }

  /** The pushes a run accepted on a stream, in order. */
  function Sent(c: Cipher, w: World, events: seq<Event>, id: StreamId): seq<Sealed>
    decreases |events|
  {
    if events == [] then []
    else SealedBy(c, w, events[0], id) + Sent(c, Next(c, w, events[0]), events[1..], id)
  }

  function ChunksOf(w: World, id: StreamId): seq<Chunk> {
    if id in w.streams then w.streams[id].chunks else []
  }

  /** What was sent is what the stream released, and each ciphertext opens as its own chunk. */
  ghost predicate Carries(c: Cipher, id: StreamId, chunks: seq<Chunk>, sent: seq<Sealed>) {
    && |sent| == |chunks|
    && forall i :: 0 <= i < |sent| ==> CarriesAt(c, id, i, chunks[i], sent[i])
  }

  ghost predicate CarriesAt(c: Cipher, id: StreamId, i: nat, chunk: Chunk, s: Sealed) {
    && s.plaintext == chunk.plaintext && s.final == chunk.final && |s.ciphertext| == |s.plaintext| + ABYTES
    && c.open(id, i, chunk.header, s.ciphertext) == Some((s.plaintext, s.final))
  }

  lemma SealedAt(c: Cipher, w: World, handle: u64, final: bool, plaintext: bytes)
    requires PushesOk(w.table, w.streams) && Expands(c) && Opens(c)
    requires PushChunk(c, w.table, handle, final, plaintext).result.Ok?
    ensures var s, encrypted := w.table[handle], PushChunk(c, w.table, handle, final, plaintext).result.value;
      s.stream in w.streams && CarriesAt(c, s.stream, |w.streams[s.stream].chunks|,
        Chunk(s.header.bytes, plaintext, final), Sealed(encrypted, plaintext, final))
  {
    var s := w.table[handle];
    assert PushOk(s, w.streams[s.stream].header, w.streams[s.stream].chunks);
    assert |c.seal(s.stream, s.index, s.header.bytes, plaintext, final)| == |plaintext| + ABYTES;
  }

  lemma NewStreamIsEmpty(c: Cipher, w: World, e: Event, id: StreamId)
    requires e.CreatingPush? && e.stream !in w.streams
    ensures ChunksOf(Next(c, w, e), id) == ChunksOf(w, id)
  {
  }

  lemma OthersRelease(c: Cipher, w: World, e: Event, id: StreamId)
    requires Ideal(c, w, e) && SealedBy(c, w, e, id) == []
    ensures ChunksOf(Next(c, w, e), id) == ChunksOf(w, id)
  {
    match e
    case CreatingPush(_, _, _, _, _, _) => NewStreamIsEmpty(c, w, e, id);
    case CreatingPull(_, _, _, _) => AttachmentSessions.PullCreated(c, w, e);
    case Pushing(_, _, _) =>
    case Pulling(handle, ciphertext) => AttachmentSessions.PulledTable(c, w, handle, ciphertext);
    case Closing(_, _) =>
  }

  lemma PushReleasesOne(c: Cipher, w: World, handle: u64, final: bool, plaintext: bytes)
    requires PushChunk(c, w.table, handle, final, plaintext).result.Ok? && w.table[handle].stream in w.streams
    ensures ChunksOf(Next(c, w, Pushing(handle, final, plaintext)), w.table[handle].stream)
      == ChunksOf(w, w.table[handle].stream) + [Chunk(w.table[handle].header.bytes, plaintext, final)]
  {
  }

  lemma CarriesMore(c: Cipher, id: StreamId, chunks: seq<Chunk>, sent: seq<Sealed>, chunk: Chunk, s: Sealed)
    requires Carries(c, id, chunks, sent) && CarriesAt(c, id, |chunks|, chunk, s)
    ensures Carries(c, id, chunks + [chunk], sent + [s])
  {
  }

  lemma SentNext(c: Cipher, w: World, e: Event, id: StreamId, sent: seq<Sealed>)
    requires PushesOk(w.table, w.streams) && Expands(c) && Opens(c) && Ideal(c, w, e)
    requires Carries(c, id, ChunksOf(w, id), sent)
    ensures Carries(c, id, ChunksOf(Next(c, w, e), id), sent + SealedBy(c, w, e, id))
  {
    if SealedBy(c, w, e, id) == [] {
      OthersRelease(c, w, e, id);
      assert sent + [] == sent;
    } else {
      SealedAt(c, w, e.handle, e.final, e.plaintext);
      PushReleasesOne(c, w, e.handle, e.final, e.plaintext);
      CarriesMore(c, id, ChunksOf(w, id), sent, Chunk(w.table[e.handle].header.bytes, e.plaintext, e.final),
                  SealedBy(c, w, e, id)[0]);
    }
  }

  lemma RunOf(c: Cipher, w: World, e: Event, rest: seq<Event>, id: StreamId)
    ensures Run(c, w, [e] + rest) == Run(c, Next(c, w, e), rest)
    ensures IdealRun(c, w, [e] + rest) == (Ideal(c, w, e) && IdealRun(c, Next(c, w, e), rest))
    ensures Sent(c, w, [e] + rest, id) == SealedBy(c, w, e, id) + Sent(c, Next(c, w, e), rest, id)
  {
    assert ([e] + rest)[0] == e && ([e] + rest)[1..] == rest;
  }

  lemma Together(a: seq<Sealed>, b: seq<Sealed>, c: seq<Sealed>)
    ensures a + b + c == a + (b + c)
  {
  }

  lemma {:induction false} SentIsReleased(c: Cipher, w: World, events: seq<Event>, id: StreamId, sent: seq<Sealed>)
    requires Inv(HeaderOk, w) && Expands(c) && Opens(c) && IdealRun(c, w, events)
    requires Carries(c, id, ChunksOf(w, id), sent)
    ensures Carries(c, id, ChunksOf(Run(c, w, events), id), sent + Sent(c, w, events, id))
    decreases |events|
  {
    if events == [] {
      assert sent + [] == sent;
    } else {
      var next, more := Next(c, w, events[0]), SealedBy(c, w, events[0], id);
      SentNext(c, w, events[0], id, sent);
      NextKeeps(c, w, events[0]);
      SentIsReleased(c, next, events[1..], id, sent + more);
      Together(sent, more, Sent(c, next, events[1..], id));
    }
  }

  ghost predicate Reachable(c: Cipher, w: World) {
    exists before: seq<Event> :: IdealRun(c, START, before) && w == Run(c, START, before)
  }

  lemma ReachableIsOk(c: Cipher, w: World)
    requires Expands(c) && Reachable(c, w)
    ensures Inv(HeaderOk, w)
  {
    var before: seq<Event> :| IdealRun(c, START, before) && w == Run(c, START, before);
    RunKeeps(c, START, before);
  }

  /** On a new stream, what was sent is what was released. */
  lemma SentIsAll(c: Cipher, w: World, events: seq<Event>, id: StreamId)
    requires Expands(c) && Opens(c) && Reachable(c, w) && id !in w.streams && IdealRun(c, w, events)
    ensures Inv(HeaderOk, Run(c, w, events))
    ensures Carries(c, id, ChunksOf(Run(c, w, events), id), Sent(c, w, events, id))
  {
    ReachableIsOk(c, w);
    RunKeeps(c, w, events);
    SentIsReleased(c, w, events, id, []);
    assert [] + Sent(c, w, events, id) == Sent(c, w, events, id);
  }

  // What the receiver did

  function FedBy(e: Event, handle: u64): seq<bytes> {
    if e.Pulling? && e.handle == handle then [e.ciphertext] else []
  }

  /** The ciphertexts shown to a session, in order. */
  function Fed(events: seq<Event>, handle: u64): seq<bytes> {
    if events == [] then [] else FedBy(events[0], handle) + Fed(events[1..], handle)
  }

  function AnsweredBy(c: Cipher, w: World, e: Event, handle: u64): seq<Result<(bytes, bool)>> {
    if e.Pulling? && e.handle == handle then [PullChunk(c, w.table, handle, e.ciphertext).result] else []
  }

  /** What it answered to each. */
  function Answers(c: Cipher, w: World, events: seq<Event>, handle: u64): seq<Result<(bytes, bool)>>
    decreases |events|
  {
    if events == [] then []
    else AnsweredBy(c, w, events[0], handle) + Answers(c, Next(c, w, events[0]), events[1..], handle)
  }

  predicate StaysOpen(events: seq<Event>, handle: u64) {
    forall i :: 0 <= i < |events| && events[i].Closing? ==> events[i].handle != handle
  }

  /** Nothing but its own chunks and its own close touches a pull session. */
  lemma OthersLeaveAlone(c: Cipher, w: World, e: Event, handle: u64)
    requires handle in w.table && w.table[handle].Pull?
    requires !(e.Pulling? && e.handle == handle) && !(e.Closing? && e.handle == handle)
    ensures handle in Next(c, w, e).table && Next(c, w, e).table[handle] == w.table[handle]
  {
    match e
    case CreatingPush(_, _, _, _, _, _) => CreatePushOpens(w.table, e);
    case CreatingPull(_, _, _, _) => CreatePullOpens(w.table, e);
    case Pushing(h, final, plaintext) => AttachmentSessions.PushedTable(c, w, h, final, plaintext);
    case Pulling(h, ciphertext) => AttachmentSessions.PulledTable(c, w, h, ciphertext);
    case Closing(_, _) =>
  }

  /** A pull session that has taken the first chunks of a stream, and no more. */
  ghost predicate Taken(s: Session, id: StreamId, h: Header, chunks: seq<Chunk>) {
    && s.Pull? && s.stream == id && s.header == h && s.index <= |chunks|
    && InStep(s, chunks[..s.index], Concat(chunks[..s.index]))
  }

  lemma FeedStep(ok: HeaderRule, c: Cipher, table: Table, handle: u64, id: StreamId, h: Header, chunks: seq<Chunk>,
                 s: Sealed)
    requires Accounts(ok) && StreamOk(ok, h, chunks) && handle in table && Taken(table[handle], id, h, chunks)
    requires table[handle].index < |chunks|
    requires CarriesAt(c, id, table[handle].index, chunks[table[handle].index], s)
    ensures var step := PullChunk(c, table, handle, s.ciphertext);
      && step.result == Ok((s.plaintext, s.final)) && handle in step.table
      && Taken(step.table[handle], id, h, chunks) && step.table[handle].index == table[handle].index + 1
  {
    var session := table[handle];
    NextChunk(ok, session, h, chunks, Concat(chunks[..session.index]));
    assert chunks[session.index].header == h.bytes;
    assert session.index > 0 ==> chunks[..session.index][session.index - 1] == chunks[session.index - 1];
  }

  /** The ciphertexts are those of a stream from a chunk on. */
  predicate Follows(fed: seq<bytes>, sent: seq<Sealed>, from: nat) {
    && from + |fed| <= |sent|
    && forall i :: 0 <= i < |fed| ==> fed[i] == sent[from + i].ciphertext
  }

  predicate Returned(answers: seq<Result<(bytes, bool)>>, sent: seq<Sealed>, from: nat) {
    && from + |answers| <= |sent|
    && forall i :: 0 <= i < |answers| ==> answers[i] == Ok((sent[from + i].plaintext, sent[from + i].final))
  }

  lemma PullFirst(c: Cipher, w: World, events: seq<Event>, handle: u64, ciphertext: bytes)
    requires events != [] && events[0] == Pulling(handle, ciphertext)
    ensures Fed(events, handle) == [ciphertext] + Fed(events[1..], handle)
    ensures Next(c, w, events[0]).table == PullChunk(c, w.table, handle, ciphertext).table
    ensures Answers(c, w, events, handle)
      == [PullChunk(c, w.table, handle, ciphertext).result] + Answers(c, Next(c, w, events[0]), events[1..], handle)
  {
  }

  lemma OtherFirst(c: Cipher, w: World, events: seq<Event>, handle: u64)
    requires events != [] && !(events[0].Pulling? && events[0].handle == handle)
    ensures Fed(events, handle) == Fed(events[1..], handle)
    ensures Answers(c, w, events, handle) == Answers(c, Next(c, w, events[0]), events[1..], handle)
  {
  }

  lemma FollowsRest(first: bytes, fed: seq<bytes>, sent: seq<Sealed>, from: nat)
    requires Follows([first] + fed, sent, from)
    ensures from < |sent| && sent[from].ciphertext == first && Follows(fed, sent, from + 1)
  {
    assert ([first] + fed)[0] == first;
    forall i | 0 <= i < |fed|
      ensures fed[i] == sent[from + 1 + i].ciphertext
    {
      assert ([first] + fed)[i + 1] == fed[i];
    }
  }

  lemma ReturnedMore(answers: seq<Result<(bytes, bool)>>, sent: seq<Sealed>, from: nat)
    requires from < |sent| && Returned(answers, sent, from + 1)
    ensures Returned([Ok((sent[from].plaintext, sent[from].final))] + answers, sent, from)
  {
  }

  lemma {:induction false} Feeding(ok: HeaderRule, c: Cipher, w: World, events: seq<Event>, handle: u64, id: StreamId,
                                   h: Header, chunks: seq<Chunk>, sent: seq<Sealed>)
    requires Accounts(ok) && StreamOk(ok, h, chunks) && Carries(c, id, chunks, sent)
    requires handle in w.table && Taken(w.table[handle], id, h, chunks)
    requires StaysOpen(events, handle) && Follows(Fed(events, handle), sent, w.table[handle].index)
    ensures |Answers(c, w, events, handle)| == |Fed(events, handle)|
    ensures Returned(Answers(c, w, events, handle), sent, w.table[handle].index)
    ensures var w' := Run(c, w, events);
      && handle in w'.table && Taken(w'.table[handle], id, h, chunks)
      && w'.table[handle].index == w.table[handle].index + |Fed(events, handle)|
    decreases |events|
  {
    if events != [] {
      var e, rest, next, k := events[0], events[1..], Next(c, w, events[0]), w.table[handle].index;
      if e.Pulling? && e.handle == handle {
        PullFirst(c, w, events, handle, e.ciphertext);
        FollowsRest(e.ciphertext, Fed(rest, handle), sent, k);
        FeedStep(ok, c, w.table, handle, id, h, chunks, sent[k]);
        Feeding(ok, c, next, rest, handle, id, h, chunks, sent);
        ReturnedMore(Answers(c, next, rest, handle), sent, k);
      } else {
        OtherFirst(c, w, events, handle);
        OthersLeaveAlone(c, w, e, handle);
        Feeding(ok, c, next, rest, handle, id, h, chunks, sent);
      }
    }
  }

  // End to end

  predicate Ended(sent: seq<Sealed>) {
    sent != [] && sent[|sent| - 1].final
  }

  /** For every run of the sender from where a stream is new, and every run of a receiver whose pull
      was just opened on that stream under the sender's header: shown the ciphertexts sent, in order
      and as far as it is shown them, the pull returns exactly the plaintexts pushed. Only the last
      push of a stream can be final. The pull closes without an abort exactly when it was shown all of
      a stream that ended. */
  lemma Delivered(c: Cipher, w: World, sending: seq<Event>, id: StreamId, receiver: World, pulling: seq<Event>,
                  handle: u64)
    requires Expands(c) && Opens(c) && Reachable(c, w) && id !in w.streams
    requires IdealRun(c, w, sending) && id in Run(c, w, sending).streams
    requires handle in receiver.table
    requires receiver.table[handle] == Pull(id, 0, Run(c, w, sending).streams[id].header, 0, 0, false)
    requires StaysOpen(pulling, handle) && Follows(Fed(pulling, handle), Sent(c, w, sending, id), 0)
    ensures var sent, answers := Sent(c, w, sending, id), Answers(c, receiver, pulling, handle);
      && |answers| == |Fed(pulling, handle)| && Returned(answers, sent, 0)
      && (forall i :: 0 <= i < |sent| && sent[i].final ==> i == |sent| - 1)
      && (CloseSession(Run(c, receiver, pulling).table, handle, false).result.Ok?
          <==> Ended(sent) && |answers| == |sent|)
  {
    HeadersAccount();
    SentIsAll(c, w, sending, id);
    Arrives(HeaderOk, c, Run(c, w, sending).streams[id], Sent(c, w, sending, id), id, receiver, pulling, handle);
  }

  lemma Arrives(ok: HeaderRule, c: Cipher, stream: Stream, sent: seq<Sealed>, id: StreamId, receiver: World,
                pulling: seq<Event>, handle: u64)
    requires Accounts(ok) && StreamOk(ok, stream.header, stream.chunks) && Carries(c, id, stream.chunks, sent)
    requires handle in receiver.table && receiver.table[handle] == Pull(id, 0, stream.header, 0, 0, false)
    requires StaysOpen(pulling, handle) && Follows(Fed(pulling, handle), sent, 0)
    ensures var answers := Answers(c, receiver, pulling, handle);
      && |answers| == |Fed(pulling, handle)| && Returned(answers, sent, 0)
      && (forall i :: 0 <= i < |sent| && sent[i].final ==> i == |sent| - 1)
      && (CloseSession(Run(c, receiver, pulling).table, handle, false).result.Ok?
          <==> Ended(sent) && |answers| == |sent|)
  {
    assert stream.chunks[..0] == [];
    Feeding(ok, c, receiver, pulling, handle, id, stream.header, stream.chunks, sent);
    FinalOnlyLast(ok, c, id, stream.header, stream.chunks, sent, |Fed(pulling, handle)|);
  }

  lemma FinalOnlyLast(ok: HeaderRule, c: Cipher, id: StreamId, h: Header, chunks: seq<Chunk>, sent: seq<Sealed>, n: nat)
    requires StreamOk(ok, h, chunks) && Carries(c, id, chunks, sent) && n <= |sent|
    ensures forall i :: 0 <= i < |sent| && sent[i].final ==> i == |sent| - 1
    ensures Finished(chunks[..n]) <==> Ended(sent) && n == |sent|
  {
    forall i | 0 <= i < |sent| && sent[i].final
      ensures i == |sent| - 1
    {
      assert CarriesAt(c, id, i, chunks[i], sent[i]);
    }
    if n > 0 {
      assert CarriesAt(c, id, n - 1, chunks[n - 1], sent[n - 1]);
      assert chunks[..n][n - 1] == chunks[n - 1];
    }
  }

  /** The sender's session closes without an abort exactly when its last push was the final one. */
  lemma SenderCloses(c: Cipher, w: World, sending: seq<Event>, id: StreamId, handle: u64)
    requires Expands(c) && Opens(c) && Reachable(c, w) && id !in w.streams && IdealRun(c, w, sending)
    requires var w' := Run(c, w, sending); handle in w'.table && w'.table[handle].Push? && w'.table[handle].stream == id
    ensures CloseSession(Run(c, w, sending).table, handle, false).result.Ok? <==> Ended(Sent(c, w, sending, id))
  {
    var w' := Run(c, w, sending);
    SentIsAll(c, w, sending, id);
    EndedIsFinished(c, id, ChunksOf(w', id), Sent(c, w, sending, id));
    HeadersAccount();
    PushIsExact(HeaderOk, w'.table[handle], w'.streams[id]);
  }

  lemma EndedIsFinished(c: Cipher, id: StreamId, chunks: seq<Chunk>, sent: seq<Sealed>)
    requires Carries(c, id, chunks, sent)
    ensures Ended(sent) <==> Finished(chunks)
  {
    if sent != [] {
      assert CarriesAt(c, id, |sent| - 1, chunks[|sent| - 1], sent[|sent| - 1]);
    }
  }

  // A whole file

  function PushAll(handle: u64, pieces: seq<bytes>): seq<Event> {
    if pieces == [] then [] else [Pushing(handle, |pieces| == 1, pieces[0])] + PushAll(handle, pieces[1..])
  }

  function Join(pieces: seq<bytes>): bytes {
    if pieces == [] then [] else pieces[0] + Join(pieces[1..])
  }

  lemma {:induction false} CutJoins(data: bytes)
    ensures Join(Cut(data)) == data
    decreases |data|
  {
    if |data| <= CHUNK_BYTES {
      assert Join([data]) == data + Join([]);
    } else {
      CutJoins(data[CHUNK_BYTES..]);
      assert Cut(data)[1..] == Cut(data[CHUNK_BYTES..]);
    }
  }

  /** The answers that return the pieces, the last of them as final. */
  function Replies(pieces: seq<bytes>): seq<Result<(bytes, bool)>> {
    seq(|pieces|, i requires 0 <= i < |pieces| => Ok((pieces[i], i == |pieces| - 1)))
  }

  predicate Pieces(sent: seq<Sealed>, pieces: seq<bytes>) {
    && |sent| == |pieces|
    && forall i :: 0 <= i < |sent| ==> sent[i].plaintext == pieces[i] && sent[i].final == (i == |pieces| - 1)
  }

  lemma PushFirst(c: Cipher, w: World, handle: u64, pieces: seq<bytes>, id: StreamId)
    requires AcceptsAll(c, w.table, handle, pieces)
    requires handle in w.table && w.table[handle].Push? && w.table[handle].stream == id
    ensures var e := Pushing(handle, |pieces| == 1, pieces[0]);
      && SealedBy(c, w, e, id)
        == [Sealed(PushChunk(c, w.table, handle, |pieces| == 1, pieces[0]).result.value, pieces[0], |pieces| == 1)]
      && Next(c, w, e).table == PushChunk(c, w.table, handle, |pieces| == 1, pieces[0]).table
      && handle in Next(c, w, e).table && Next(c, w, e).table[handle].Push? && Next(c, w, e).table[handle].stream == id
      && (|pieces| > 1 ==> AcceptsAll(c, Next(c, w, e).table, handle, pieces[1..]))
  {
  }

  /** Pushes that are all accepted are all sent. */
  lemma {:induction false} SentAll(c: Cipher, w: World, handle: u64, pieces: seq<bytes>, id: StreamId)
    requires AcceptsAll(c, w.table, handle, pieces)
    requires handle in w.table && w.table[handle].Push? && w.table[handle].stream == id
    ensures IdealRun(c, w, PushAll(handle, pieces)) && Pieces(Sent(c, w, PushAll(handle, pieces), id), pieces)
    ensures var w' := Run(c, w, PushAll(handle, pieces));
      handle in w'.table && w'.table[handle].Push? && w'.table[handle].stream == id
    decreases |pieces|
  {
    var e, rest := Pushing(handle, |pieces| == 1, pieces[0]), PushAll(handle, pieces[1..]);
    PushFirst(c, w, handle, pieces, id);
    assert PushAll(handle, pieces)[0] == e && PushAll(handle, pieces)[1..] == rest;
    if |pieces| > 1 {
      SentAll(c, Next(c, w, e), handle, pieces[1..], id);
    }
  }

  lemma ReturnedIsReplies(answers: seq<Result<(bytes, bool)>>, sent: seq<Sealed>, pieces: seq<bytes>)
    requires Returned(answers, sent, 0) && |answers| == |sent| && Pieces(sent, pieces)
    ensures answers == Replies(pieces)
  {
  }

  /** Opening a push and pushing a file cut at 64 KiB. */
  function SendFile(e: Event, data: bytes): seq<Event>
    requires e.CreatingPush?
  {
    [e] + PushAll(Handle(e.drawn), Cut(data))
  }

  lemma PushOpened(c: Cipher, w: World, e: Event)
    requires e.CreatingPush? && e.stream !in w.streams
    requires PushOf(w.table, e).result.Ok?
    ensures var step, next := PushOf(w.table, e), Next(c, w, e);
      && step.result.value == Handle(e.drawn) && next.table == step.table && Handle(e.drawn) in next.table
      && next.table[Handle(e.drawn)].Push? && next.table[Handle(e.drawn)].stream == e.stream
      && e.stream in next.streams && next.streams[e.stream].header == step.table[Handle(e.drawn)].header
  {
    CreatePushExactly(w.table, e);
  }

  lemma HeaderKept(c: Cipher, w: World, e: Event, id: StreamId)
    requires Ideal(c, w, e) && id in w.streams
    ensures id in Next(c, w, e).streams && Next(c, w, e).streams[id].header == w.streams[id].header
  {
    match e
    case CreatingPush(_, _, _, _, _, _) =>
    case CreatingPull(_, _, _, _) => AttachmentSessions.PullCreated(c, w, e);
    case Pushing(_, _, _) =>
    case Pulling(handle, ciphertext) => AttachmentSessions.PulledTable(c, w, handle, ciphertext);
    case Closing(_, _) =>
  }

  lemma {:induction false} HeaderStays(c: Cipher, w: World, events: seq<Event>, id: StreamId)
    requires IdealRun(c, w, events) && id in w.streams
    ensures id in Run(c, w, events).streams && Run(c, w, events).streams[id].header == w.streams[id].header
    decreases |events|
  {
    if events != [] {
      HeaderKept(c, w, events[0], id);
      HeaderStays(c, Next(c, w, events[0]), events[1..], id);
    }
  }

  /** Sending a file is accepted throughout, and sends its pieces on its stream and nothing else. */
  lemma FileSent(c: Cipher, w: World, e: Event, data: bytes)
    requires Expands(c) && e.CreatingPush? && |data| == e.plaintextSize && e.stream !in w.streams
    requires PushOf(w.table, e).result.Ok?
    ensures var sending := SendFile(e, data);
      && IdealRun(c, w, sending) && Pieces(Sent(c, w, sending, e.stream), Cut(data))
      && var w', step := Run(c, w, sending), PushOf(w.table, e);
         && Handle(e.drawn) in w'.table && w'.table[Handle(e.drawn)].Push?
         && w'.table[Handle(e.drawn)].stream == e.stream
         && e.stream in w'.streams && Handle(e.drawn) in step.table
         && w'.streams[e.stream].header == step.table[Handle(e.drawn)].header
  {
    var next, pushes := Next(c, w, e), PushAll(Handle(e.drawn), Cut(data));
    PushOpened(c, w, e);
    CutAlwaysCompletes(c, w.table, e, data);
    SentAll(c, next, Handle(e.drawn), Cut(data), e.stream);
    HeaderStays(c, next, pushes, e.stream);
    RunOf(c, w, e, pushes, e.stream);
    assert Ideal(c, w, e) && SealedBy(c, w, e, e.stream) == [];
  }

  /** A file sent on a new stream arrives whole: shown its ciphertexts in order, in whatever company, a
      pull opened under its header answers with its 64 KiB pieces, "final" on the last alone; the
      pieces joined are the file, and both sessions close without an abort. */
  lemma FileArrives(c: Cipher, w: World, e: Event, data: bytes, receiver: World, pulling: seq<Event>, handle: u64)
    requires Expands(c) && Opens(c) && Reachable(c, w)
    requires e.CreatingPush? && |data| == e.plaintextSize && e.stream !in w.streams
    requires PushOf(w.table, e).result.Ok? && Handle(e.drawn) in PushOf(w.table, e).table && handle in receiver.table
    requires receiver.table[handle]
      == Pull(e.stream, 0, PushOf(w.table, e).table[Handle(e.drawn)].header, 0, 0, false)
    requires var sent := Sent(c, w, SendFile(e, data), e.stream);
      StaysOpen(pulling, handle) && |Fed(pulling, handle)| == |sent| && Follows(Fed(pulling, handle), sent, 0)
    ensures Answers(c, receiver, pulling, handle) == Replies(Cut(data)) && Join(Cut(data)) == data
    ensures CloseSession(Run(c, receiver, pulling).table, handle, false).result.Ok?
    ensures CloseSession(Run(c, w, SendFile(e, data)).table, Handle(e.drawn), false).result.Ok?
  {
    var sending := SendFile(e, data);
    FileSent(c, w, e, data);
    Delivered(c, w, sending, e.stream, receiver, pulling, handle);
    SenderCloses(c, w, sending, e.stream, Handle(e.drawn));
    ReturnedIsReplies(Answers(c, receiver, pulling, handle), Sent(c, w, sending, e.stream), Cut(data));
    CutJoins(data);
  }
}
