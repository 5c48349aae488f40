/** Every run of the attachment operations: exact accounting on the push side, and end to end, what
    a pull returns is what was pushed. */
module AttachmentRuns {
  import opened Bytes
  import opened AttachmentSizes
  import opened Attachment

  /** A chunk whose ciphertext `push_chunk` returned. */
  datatype Chunk = Chunk(header: bytes, plaintext: bytes, final: bool)

  /** What became known of a stream: the handle that opened it, its header, the chunks released. */
  datatype Stream = Stream(owner: u64, header: Header, chunks: seq<Chunk>)

  /** The table, and the history a bystander would record: what each stream released, and what each
      pull session returned. */
  datatype World = World(table: Table, streams: map<StreamId, Stream>, received: map<u64, bytes>)

  datatype Event =
    | CreatingPush(plaintextSize: u64, chunkSize: u32, bucketSize: u64, metadataHash: Bytes32, stream: StreamId,
                   drawn: u64)
    | CreatingPull(stream: StreamId, headerBytes: Bytes66, metadataHash: Bytes32, drawn: u64)
    | Pushing(handle: u64, final: bool, plaintext: bytes)
    | Pulling(handle: u64, ciphertext: bytes)
    | Closing(handle: u64, abort: bool)

  const START: World := World(map[], map[], map[])

  function Next(c: Cipher, w: World, e: Event): World {
    match e
    case CreatingPush(plaintextSize, chunkSize, bucketSize, metadataHash, stream, drawn) =>
      var step := CreatePush(w.table, plaintextSize, chunkSize, bucketSize, metadataHash, stream, drawn);
      if step.result.Err? then w.(table := step.table)
      else
        var handle := step.result.value;
        w.(table := step.table, streams := w.streams[stream := Stream(handle, step.table[handle].header, [])])
    case CreatingPull(stream, headerBytes, metadataHash, drawn) =>
      var step := CreatePull(w.table, stream, headerBytes, metadataHash, drawn);
      if step.result.Err? then w.(table := step.table)
      else w.(table := step.table, received := w.received[step.result.value := []])
    case Pushing(handle, final, plaintext) =>
      var step := PushChunk(c, w.table, handle, final, plaintext);
      if step.result.Err? then w.(table := step.table)
      else
        var s := w.table[handle];
        if s.stream in w.streams then
          w.(table := step.table, streams := Released(w.streams, s.stream, Chunk(s.header.bytes, plaintext, final)))
        else w.(table := step.table)
    case Pulling(handle, ciphertext) =>
      var step := PullChunk(c, w.table, handle, ciphertext);
      if step.result.Err? then w.(table := step.table)
      else
        var before := if handle in w.received then w.received[handle] else [];
        w.(table := step.table, received := w.received[handle := before + step.result.value.0])
    case Closing(handle, abort) => w.(table := CloseSession(w.table, handle, abort).table)
  }

  function Released(streams: map<StreamId, Stream>, id: StreamId, chunk: Chunk): map<StreamId, Stream>
    requires id in streams
  {
    streams[id := streams[id].(chunks := streams[id].chunks + [chunk])]
  }

  /** The idealisation: keys are fresh, and the cipher opens only the chunk released at that
      position of that stream under that header. */
  predicate Ideal(c: Cipher, w: World, e: Event) {
    match e
    case CreatingPush(_, _, _, _, stream, _) => stream !in w.streams
    case Pulling(handle, ciphertext) =>
      handle in w.table && w.table[handle].Pull? ==> Honest(c, w.streams, w.table[handle], ciphertext)
    case _ => true
  }

  predicate Honest(c: Cipher, streams: map<StreamId, Stream>, s: Session, ciphertext: bytes) {
    var answer := c.open(s.stream, s.index, s.header.bytes, ciphertext);
    answer.Some? ==>
      && s.stream in streams && s.index < |streams[s.stream].chunks|
      && streams[s.stream].chunks[s.index] == Chunk(s.header.bytes, answer.value.0, answer.value.1)
      && |ciphertext| == |answer.value.0| + ABYTES
  }

  // What a stream looks like

  function Concat(chunks: seq<Chunk>): bytes {
    if chunks == [] then [] else Concat(chunks[..|chunks| - 1]) + chunks[|chunks| - 1].plaintext
  }

  predicate Finished(chunks: seq<Chunk>) {
    chunks != [] && chunks[|chunks| - 1].final
  }

  /** What the invariant needs of a header: it accounts for every chunk of its stream. The
      predicate is a parameter so that the run proofs see these two facts and not the parser. */
  type HeaderRule = Header -> bool

  ghost predicate Accounts(ok: HeaderRule) {
    && (forall h :: ok(h) ==> h.streamSize == h.plaintextSize + ABYTES * ChunkCount(h.plaintextSize))
    && (forall h, k :: ok(h) && ok(k) && h.bytes == k.bytes ==> h == k)
  }

  ghost predicate StreamOk(ok: HeaderRule, h: Header, chunks: seq<Chunk>) {
    && ok(h)
    && (forall i :: 0 <= i < |chunks| ==> |chunks[i].plaintext| <= CHUNK_BYTES && chunks[i].header == h.bytes)
    && (forall i :: 0 <= i < |chunks| - 1 ==> !chunks[i].final)
    && |Concat(chunks)| <= h.plaintextSize
    && |Concat(chunks)| + ABYTES * |chunks| <= h.streamSize
    && (Finished(chunks) ==> |Concat(chunks)| == h.plaintextSize)
  }

  /** A push session agrees with what its stream released, unless it overran; then it is stuck. */
  ghost predicate PushOk(s: Session, h: Header, chunks: seq<Chunk>) {
    && s.header == h
    && if s.streamSeen <= h.streamSize then
         && s.index == |chunks| && s.plaintextSeen == |Concat(chunks)|
         && s.streamSeen == |Concat(chunks)| + ABYTES * |chunks|
         && s.finalSeen == Finished(chunks)
       else !s.finalSeen && !Finished(chunks)
  }

  /** A pull session has returned exactly the first `index` chunks of its stream. */
  ghost predicate PullOk(ok: HeaderRule, s: Session, streams: map<StreamId, Stream>, got: bytes) {
    && ok(s.header)
    && if s.index == 0 then s.plaintextSeen == 0 && s.streamSeen == 0 && !s.finalSeen && got == []
       else
         && s.stream in streams && s.header == streams[s.stream].header
         && s.index <= |streams[s.stream].chunks|
         && InStep(s, streams[s.stream].chunks[..s.index], got)
  }

  ghost predicate InStep(s: Session, taken: seq<Chunk>, got: bytes) {
    && got == Concat(taken)
    && s.plaintextSeen == |got| && s.streamSeen == |got| + ABYTES * s.index
    && s.finalSeen == Finished(taken)
  }

  ghost predicate StreamsOk(ok: HeaderRule, streams: map<StreamId, Stream>) {
    forall id :: id in streams ==> StreamOk(ok, streams[id].header, streams[id].chunks)
  }

  ghost predicate PushesOk(table: Table, streams: map<StreamId, Stream>) {
    forall h :: h in table && table[h].Push? ==>
      && table[h].stream in streams && streams[table[h].stream].owner == h
      && PushOk(table[h], streams[table[h].stream].header, streams[table[h].stream].chunks)
  }

  ghost predicate PullsOk(ok: HeaderRule, w: World) {
    forall h :: h in w.table && w.table[h].Pull? ==>
      h in w.received && PullOk(ok, w.table[h], w.streams, w.received[h])
  }

  ghost predicate Inv(ok: HeaderRule, w: World) {
    StreamsOk(ok, w.streams) && PushesOk(w.table, w.streams) && PullsOk(ok, w)
  }

  // Facts about streams

  lemma ConcatAppend(chunks: seq<Chunk>, chunk: Chunk)
    ensures Concat(chunks + [chunk]) == Concat(chunks) + chunk.plaintext
  {
    assert (chunks + [chunk])[..|chunks|] == chunks;
  }

  lemma {:induction false} ConcatPrefix(chunks: seq<Chunk>, n: nat)
    requires n <= |chunks|
    ensures Concat(chunks[..n]) <= Concat(chunks)
  {
    if n < |chunks| {
      var front := chunks[..|chunks| - 1];
      ConcatPrefix(front, n);
      assert front[..n] == chunks[..n];
    } else {
      assert chunks[..n] == chunks;
    }
  }

  lemma {:induction false} ConcatBound(chunks: seq<Chunk>)
    requires forall i :: 0 <= i < |chunks| ==> |chunks[i].plaintext| <= CHUNK_BYTES
    ensures |Concat(chunks)| <= CHUNK_BYTES * |chunks|
  {
    if chunks != [] {
      ConcatBound(chunks[..|chunks| - 1]);
    }
  }

  /** Exact accounting by counting chunks: although any chunk up to 64 KiB is allowed and only
      upper bounds are checked, a finished stream has exactly the declared sizes. */
  lemma FinishedIsExact(ok: HeaderRule, h: Header, chunks: seq<Chunk>)
    requires Accounts(ok) && StreamOk(ok, h, chunks) && Finished(chunks)
    ensures |chunks| == ChunkCount(h.plaintextSize)
    ensures |Concat(chunks)| == h.plaintextSize && |Concat(chunks)| + ABYTES * |chunks| == h.streamSize
  {
    ConcatBound(chunks);
  }

  // What each kind of update keeps

  lemma OpenPush(ok: HeaderRule, w: World, handle: u64, id: StreamId, h: Header)
    requires Inv(ok, w) && handle !in w.table && id !in w.streams && ok(h)
    ensures Inv(ok,
                w.(table := w.table[handle := Push(id, 0, h, 0, 0, false)],
                   streams := w.streams[id := Stream(handle, h, [])]))
  {
  }

  lemma OpenPull(ok: HeaderRule, w: World, handle: u64, id: StreamId, h: Header)
    requires Inv(ok, w) && handle !in w.table && ok(h)
    ensures Inv(ok, w.(table := w.table[handle := Pull(id, 0, h, 0, 0, false)], received := w.received[handle := []]))
  {
  }

  lemma MovePush(ok: HeaderRule, w: World, handle: u64, s: Session)
    requires Inv(ok, w) && handle in w.table && w.table[handle].Push? && s.Push? && s.stream == w.table[handle].stream
    requires PushOk(s, w.streams[s.stream].header, w.streams[s.stream].chunks)
    ensures Inv(ok, w.(table := w.table[handle := s]))
  {
  }

  lemma MovePull(ok: HeaderRule, w: World, handle: u64, s: Session, got: bytes)
    requires Inv(ok, w) && handle in w.table && w.table[handle].Pull? && s.Pull?
    requires PullOk(ok, s, w.streams, got)
    ensures Inv(ok, w.(table := w.table[handle := s], received := w.received[handle := got]))
  {
  }

  lemma Remove(ok: HeaderRule, w: World, handle: u64)
    requires Inv(ok, w)
    ensures Inv(ok, w.(table := w.table - {handle}))
  {
  }

  /** A pull part way through a stream stays where it is when the stream grows. */
  lemma ReleaseKeepsPull(ok: HeaderRule, s: Session, streams: map<StreamId, Stream>, got: bytes, id: StreamId,
                         chunk: Chunk)
    requires id in streams && PullOk(ok, s, streams, got)
    ensures PullOk(ok, s, Released(streams, id, chunk), got)
  {
    if s.stream == id && s.index > 0 {
      assert (streams[id].chunks + [chunk])[..s.index] == streams[id].chunks[..s.index];
    }
  }

  lemma Release(ok: HeaderRule, w: World, handle: u64, s: Session, chunk: Chunk)
    requires Inv(ok, w) && handle in w.table && w.table[handle].Push? && s.Push? && s.stream == w.table[handle].stream
    requires StreamOk(ok, w.streams[s.stream].header, w.streams[s.stream].chunks + [chunk])
    requires PushOk(s, w.streams[s.stream].header, w.streams[s.stream].chunks + [chunk])
    ensures Inv(ok, w.(table := w.table[handle := s], streams := Released(w.streams, s.stream, chunk)))
  {
    var w' := w.(table := w.table[handle := s], streams := Released(w.streams, s.stream, chunk));
    forall h | h in w'.table && w'.table[h].Pull?
      ensures h in w'.received && PullOk(ok, w'.table[h], w'.streams, w'.received[h])
    {
      ReleaseKeepsPull(ok, w.table[h], w.streams, w.received[h], s.stream, chunk);
    }
  }

  // Pushing

  /** One accepted chunk, seen from its stream. */
  lemma ExtendStream(ok: HeaderRule, s: Session, s': Session, h: Header, chunks: seq<Chunk>, chunk: Chunk)
    requires StreamOk(ok, h, chunks) && PushOk(s, h, chunks) && !s.finalSeen
    requires |chunk.plaintext| <= CHUNK_BYTES && chunk.header == h.bytes
    requires s'.header == h && s'.index == s.index + 1 && s'.finalSeen == chunk.final
    requires s'.plaintextSeen == s.plaintextSeen + |chunk.plaintext| <= h.plaintextSize
    requires s'.streamSeen == s.streamSeen + |chunk.plaintext| + ABYTES <= h.streamSize
    requires chunk.final ==> s'.plaintextSeen == h.plaintextSize
    ensures StreamOk(ok, h, chunks + [chunk]) && PushOk(s', h, chunks + [chunk])
  {
    ConcatAppend(chunks, chunk);
  }

  /** What a released chunk does to its session and stream. */
  lemma PushStep(ok: HeaderRule, c: Cipher, table: Table, stream: Stream, handle: u64, final: bool, plaintext: bytes)
    requires Expands(c) && PushChunk(c, table, handle, final, plaintext).result.Ok?
    requires StreamOk(ok, stream.header, stream.chunks) && PushOk(table[handle], stream.header, stream.chunks)
    ensures var s, chunk :=
      PushChunk(c, table, handle, final, plaintext).table[handle], Chunk(stream.header.bytes, plaintext, final);
      && s.Push? && s.stream == table[handle].stream
      && PushChunk(c, table, handle, final, plaintext).table == table[handle := s]
      && StreamOk(ok, stream.header, stream.chunks + [chunk]) && PushOk(s, stream.header, stream.chunks + [chunk])
  {
    var s := PushChunk(c, table, handle, final, plaintext).table[handle];
    ExtendStream(ok, table[handle], s, stream.header, stream.chunks, Chunk(stream.header.bytes, plaintext, final));
  }

  lemma PushReleases(ok: HeaderRule, c: Cipher, w: World, handle: u64, final: bool, plaintext: bytes)
    requires Inv(ok, w) && Expands(c)
    requires PushChunk(c, w.table, handle, final, plaintext).result.Ok?
    ensures Inv(ok, Next(c, w, Pushing(handle, final, plaintext)))
  {
    var s := w.table[handle];
    var chunk := Chunk(s.header.bytes, plaintext, final);
    var table := PushChunk(c, w.table, handle, final, plaintext).table;
    assert s.stream in w.streams
      && Next(c, w, Pushing(handle, final, plaintext))
        == w.(table := table, streams := Released(w.streams, s.stream, chunk));
    assert w.streams[s.stream].header == s.header;
    PushStep(ok, c, w.table, w.streams[s.stream], handle, final, plaintext);
    ReleaseTo(ok, w, handle, table, chunk);
  }

  lemma ReleaseTo(ok: HeaderRule, w: World, handle: u64, table: Table, chunk: Chunk)
    requires Inv(ok, w) && handle in w.table && w.table[handle].Push? && handle in table
    requires table == w.table[handle := table[handle]]
    requires table[handle].Push? && table[handle].stream == w.table[handle].stream
    requires var stream := w.streams[w.table[handle].stream];
      StreamOk(ok, stream.header, stream.chunks + [chunk])
        && PushOk(table[handle], stream.header, stream.chunks + [chunk])
    ensures Inv(ok, w.(table := table, streams := Released(w.streams, w.table[handle].stream, chunk)))
  {
    Release(ok, w, handle, table[handle], chunk);
  }

  /** A push that overran moves its counters and can never complete. */
  lemma PushRefused(ok: HeaderRule, c: Cipher, w: World, handle: u64, final: bool, plaintext: bytes)
    requires Inv(ok, w)
    requires PushChunk(c, w.table, handle, final, plaintext).result.Err?
    ensures Inv(ok, Next(c, w, Pushing(handle, final, plaintext)))
  {
    var step := PushChunk(c, w.table, handle, final, plaintext);
    if step.table != w.table {
      MovePush(ok, w, handle, step.table[handle]);
    }
  }

  // Pulling

  /** The next chunk of a stream always passes the size checks of a pull that is in step. */
  lemma NextChunk(ok: HeaderRule, s: Session, h: Header, chunks: seq<Chunk>, got: bytes)
    requires Accounts(ok) && StreamOk(ok, h, chunks) && s.header == h
    requires s.index < |chunks| && InStep(s, chunks[..s.index], got)
    ensures var chunk := chunks[s.index];
      && got + chunk.plaintext == Concat(chunks[..s.index + 1])
      && s.plaintextSeen + |chunk.plaintext| <= h.plaintextSize
      && s.streamSeen + |chunk.plaintext| + ABYTES <= h.streamSize
      && (chunk.final ==> s.plaintextSeen + |chunk.plaintext| == h.plaintextSize
                          && s.streamSeen + |chunk.plaintext| + ABYTES == h.streamSize)
      && chunk.final == Finished(chunks[..s.index + 1])
  {
    var chunk := chunks[s.index];
    assert chunks[..s.index + 1] == chunks[..s.index] + [chunk];
    ConcatAppend(chunks[..s.index], chunk);
    ConcatPrefix(chunks, s.index + 1);
    if chunk.final {
      assert s.index == |chunks| - 1;
      assert chunks[..s.index + 1] == chunks;
      FinishedIsExact(ok, h, chunks);
    }
  }

  /** What an honest chunk does to a pull session, and that nothing else moves one. */
  lemma PullStep(ok: HeaderRule, c: Cipher, w: World, handle: u64, ciphertext: bytes)
    requires Accounts(ok) && StreamsOk(ok, w.streams) && handle in w.table && w.table[handle].Pull?
    requires handle in w.received
    requires PullOk(ok, w.table[handle], w.streams, w.received[handle])
    requires Honest(c, w.streams, w.table[handle], ciphertext)
    ensures var step := PullChunk(c, w.table, handle, ciphertext);
      if step.result.Err? then step.table == w.table
      else handle in step.table && step.table[handle].Pull? && step.table == w.table[handle := step.table[handle]]
           && PullOk(ok, step.table[handle], w.streams, w.received[handle] + step.result.value.0)
  {
    var s := w.table[handle];
    var answer := c.open(s.stream, s.index, s.header.bytes, ciphertext);
    if answer.Some? {
      var stream := w.streams[s.stream];
      assert StreamOk(ok, stream.header, stream.chunks);
      NextChunk(ok, s, s.header, stream.chunks, w.received[handle]);
    }
  }

  lemma PullKeeps(ok: HeaderRule, c: Cipher, w: World, handle: u64, ciphertext: bytes)
    requires Accounts(ok) && Inv(ok, w) && Ideal(c, w, Pulling(handle, ciphertext))
    ensures Inv(ok, Next(c, w, Pulling(handle, ciphertext)))
    ensures PullChunk(c, w.table, handle, ciphertext).result.Err? ==> Next(c, w, Pulling(handle, ciphertext)) == w
  {
    if handle in w.table && w.table[handle].Pull? {
      PullStep(ok, c, w, handle, ciphertext);
      var step := PullChunk(c, w.table, handle, ciphertext);
      if step.result.Ok? {
        MovePull(ok, w, handle, step.table[handle], w.received[handle] + step.result.value.0);
      }
    }
  }

  // Every event

  /** The headers the operations make and accept. */
  predicate HeaderOk(h: Header) {
    ParseHeader(h.bytes) == Ok(h) && h.streamSize == h.plaintextSize + ABYTES * ChunkCount(h.plaintextSize)
  }

  lemma HeadersAccount()
    ensures Accounts(HeaderOk)
  {
  }

  lemma DeclaredHeaderOk(plaintextSize: u64, bucketSize: u64, metadataHash: Bytes32)
    requires Declared(plaintextSize, bucketSize)
    ensures var made :=
      MakeHeader(plaintextSize, EncryptedStreamSize(plaintextSize, CHUNK_BYTES).value, bucketSize, CHUNK_BYTES,
                 metadataHash);
      made.Ok? && HeaderOk(made.value)
  {
    ParseOfMake(plaintextSize, bucketSize, metadataHash);
    StreamSizeValue(plaintextSize);
  }

  lemma ParsedHeaderOk(b: Bytes66)
    requires ParseHeader(b).Ok?
    ensures HeaderOk(ParseHeader(b).value)
  {
    MakeOfParse(b);
    StreamSizeValue(ParseHeader(b).value.plaintextSize);
  }

  /** An accepted create opens a push session under a header it made for a declared bucket. */
  lemma CreatePushOpens(table: Table, e: Event)
    requires e.CreatingPush?
    ensures var step :=
      CreatePush(table, e.plaintextSize, e.chunkSize, e.bucketSize, e.metadataHash, e.stream, e.drawn);
      && (step.result.Err? ==> step.table == table)
      && (step.result.Ok? ==> exists h ::
            && HeaderOk(h) && step.result.value !in table
            && step.table == table[step.result.value := Push(e.stream, 0, h, 0, 0, false)])
  {
    var step := CreatePush(table, e.plaintextSize, e.chunkSize, e.bucketSize, e.metadataHash, e.stream, e.drawn);
    if step.result.Ok? {
      DeclaredHeaderOk(e.plaintextSize, e.bucketSize, e.metadataHash);
    }
  }

  lemma CreatePushKeeps(c: Cipher, w: World, e: Event)
    requires Inv(HeaderOk, w) && e.CreatingPush? && Ideal(c, w, e)
    ensures Inv(HeaderOk, Next(c, w, e))
  {
    CreatePushOpens(w.table, e);
    var step := CreatePush(w.table, e.plaintextSize, e.chunkSize, e.bucketSize, e.metadataHash, e.stream, e.drawn);
    if step.result.Ok? {
      var h :| HeaderOk(h) && step.result.value !in w.table
               && step.table == w.table[step.result.value := Push(e.stream, 0, h, 0, 0, false)];
      OpenPush(HeaderOk, w, step.result.value, e.stream, h);
    }
  }

  lemma CreatePullOpens(table: Table, e: Event)
    requires e.CreatingPull?
    ensures var step := CreatePull(table, e.stream, e.headerBytes, e.metadataHash, e.drawn);
      && (step.result.Err? ==> step.table == table)
      && (step.result.Ok? ==> exists h ::
            && HeaderOk(h) && step.result.value !in table
            && step.table == table[step.result.value := Pull(e.stream, 0, h, 0, 0, false)])
  {
    if ParseHeader(e.headerBytes).Ok? {
      ParsedHeaderOk(e.headerBytes);
    }
  }

  lemma CreatePullKeeps(c: Cipher, w: World, e: Event)
    requires Inv(HeaderOk, w) && e.CreatingPull?
    ensures Inv(HeaderOk, Next(c, w, e))
  {
    CreatePullOpens(w.table, e);
    var step := CreatePull(w.table, e.stream, e.headerBytes, e.metadataHash, e.drawn);
    if step.result.Ok? {
      var h :| HeaderOk(h) && step.result.value !in w.table
               && step.table == w.table[step.result.value := Pull(e.stream, 0, h, 0, 0, false)];
      OpenPull(HeaderOk, w, step.result.value, e.stream, h);
    }
  }

  lemma NextKeeps(c: Cipher, w: World, e: Event)
    requires Inv(HeaderOk, w) && Expands(c) && Ideal(c, w, e)
    ensures Inv(HeaderOk, Next(c, w, e))
  {
    HeadersAccount();
    match e
    case CreatingPush(_, _, _, _, _, _) => CreatePushKeeps(c, w, e);
    case CreatingPull(_, _, _, _) => CreatePullKeeps(c, w, e);
    case Pushing(handle, final, plaintext) =>
      if PushChunk(c, w.table, handle, final, plaintext).result.Ok? {
        PushReleases(HeaderOk, c, w, handle, final, plaintext);
      } else {
        PushRefused(HeaderOk, c, w, handle, final, plaintext);
      }
    case Pulling(handle, ciphertext) => PullKeeps(HeaderOk, c, w, handle, ciphertext);
    case Closing(handle, _) => Remove(HeaderOk, w, handle);
  }

  // Runs

  function Run(c: Cipher, w: World, events: seq<Event>): World
    decreases |events|
  {
    if events == [] then w else Run(c, Next(c, w, events[0]), events[1..])
  }

  predicate IdealRun(c: Cipher, w: World, events: seq<Event>)
    decreases |events|
  {
    events == [] || (Ideal(c, w, events[0]) && IdealRun(c, Next(c, w, events[0]), events[1..]))
  }

  lemma {:induction false} RunKeeps(c: Cipher, w: World, events: seq<Event>)
    requires Inv(HeaderOk, w) && Expands(c) && IdealRun(c, w, events)
    ensures Inv(HeaderOk, Run(c, w, events))
    decreases |events|
  {
    if events != [] {
      NextKeeps(c, w, events[0]);
      RunKeeps(c, Next(c, w, events[0]), events[1..]);
    }
  }

  /** After any run, what a pull session returned is a prefix of what its stream released, and it
      counts as complete only when it is the whole of a stream of exactly the declared size. */
  lemma PulledIsPrefix(c: Cipher, events: seq<Event>, handle: u64)
    requires Expands(c) && IdealRun(c, START, events)
    requires handle in Run(c, START, events).table && Run(c, START, events).table[handle].Pull?
    ensures var w := Run(c, START, events);
      var s := w.table[handle];
      && handle in w.received
      && (s.stream in w.streams ==> w.received[handle] <= Concat(w.streams[s.stream].chunks))
      && (s.stream !in w.streams ==> w.received[handle] == [])
      && (s.finalSeen ==> s.stream in w.streams && Finished(w.streams[s.stream].chunks)
                          && w.received[handle] == Concat(w.streams[s.stream].chunks)
                          && |w.received[handle]| == s.header.plaintextSize)
  {
    RunKeeps(c, START, events);
    HeadersAccount();
    PullIsPrefix(HeaderOk, Run(c, START, events), handle);
  }

  lemma PullIsPrefix(ok: HeaderRule, w: World, handle: u64)
    requires Accounts(ok) && Inv(ok, w) && handle in w.table && w.table[handle].Pull?
    ensures var s := w.table[handle];
      && handle in w.received
      && (s.stream in w.streams ==> w.received[handle] <= Concat(w.streams[s.stream].chunks))
      && (s.stream !in w.streams ==> w.received[handle] == [])
      && (s.finalSeen ==> s.stream in w.streams && Finished(w.streams[s.stream].chunks)
                          && w.received[handle] == Concat(w.streams[s.stream].chunks)
                          && |w.received[handle]| == s.header.plaintextSize)
  {
    var s := w.table[handle];
    if s.stream in w.streams && s.index > 0 {
      var chunks := w.streams[s.stream].chunks;
      ConcatPrefix(chunks, s.index);
      if s.finalSeen {
        assert chunks[s.index - 1].final;
        assert chunks[..s.index] == chunks;
      }
    }
  }

  /** After any run, a push session that saw its final chunk counted exactly the declared sizes. */
  lemma PushedIsExact(c: Cipher, events: seq<Event>, handle: u64)
    requires Expands(c) && IdealRun(c, START, events)
    requires handle in Run(c, START, events).table && Run(c, START, events).table[handle].Push?
    ensures var w := Run(c, START, events);
      var s := w.table[handle];
      && s.stream in w.streams
      && s.finalSeen == Finished(w.streams[s.stream].chunks)
      && (s.finalSeen ==> s.plaintextSeen == s.header.plaintextSize && s.streamSeen == s.header.streamSize
                          && |Concat(w.streams[s.stream].chunks)| == s.header.plaintextSize)
  {
    RunKeeps(c, START, events);
    HeadersAccount();
    var w := Run(c, START, events);
    PushIsExact(HeaderOk, w.table[handle], w.streams[w.table[handle].stream]);
  }

  lemma PushIsExact(ok: HeaderRule, s: Session, stream: Stream)
    requires Accounts(ok) && StreamOk(ok, stream.header, stream.chunks) && PushOk(s, stream.header, stream.chunks)
    ensures s.finalSeen == Finished(stream.chunks)
    ensures s.finalSeen ==> s.plaintextSeen == s.header.plaintextSize && s.streamSeen == s.header.streamSize
                            && |Concat(stream.chunks)| == s.header.plaintextSize
  {
    if Finished(stream.chunks) {
      FinishedIsExact(ok, stream.header, stream.chunks);
    }
  }

  /** The session's stream is finished, of exactly the declared size, and a pull has returned all of it. */
  ghost predicate Complete(w: World, handle: u64) {
    && handle in w.table && w.table[handle].stream in w.streams
    && var whole := Concat(w.streams[w.table[handle].stream].chunks);
       && Finished(w.streams[w.table[handle].stream].chunks)
       && |whole| == w.table[handle].header.plaintextSize
       && (w.table[handle].Pull? ==> handle in w.received && w.received[handle] == whole)
  }

  lemma FinalIsComplete(ok: HeaderRule, w: World, handle: u64)
    requires Accounts(ok) && Inv(ok, w) && handle in w.table && w.table[handle].finalSeen
    ensures Complete(w, handle)
  {
    if w.table[handle].Push? {
      PushIsExact(ok, w.table[handle], w.streams[w.table[handle].stream]);
    } else {
      PullIsPrefix(ok, w, handle);
    }
  }

  /** A close that is not an abort succeeds only on a completed session: a push that released the
      whole stream, or a pull that returned all of it. */
  lemma ClosedIsComplete(c: Cipher, events: seq<Event>, handle: u64)
    requires Expands(c) && IdealRun(c, START, events)
    requires CloseSession(Run(c, START, events).table, handle, false).result.Ok?
    ensures Complete(Run(c, START, events), handle)
  {
    RunKeeps(c, START, events);
    HeadersAccount();
    FinalIsComplete(HeaderOk, Run(c, START, events), handle);
  }

  /** "Final" is reported only when what the session has returned, this chunk included, is the whole
      of a stream of exactly the declared size. */
  lemma FinalIsWhole(c: Cipher, events: seq<Event>, handle: u64, ciphertext: bytes)
    requires Expands(c) && IdealRun(c, START, events) && Ideal(c, Run(c, START, events), Pulling(handle, ciphertext))
    requires var r := PullChunk(c, Run(c, START, events).table, handle, ciphertext).result; r.Ok? && r.value.1
    ensures var w := Run(c, START, events);
      var s, after := w.table[handle], Next(c, w, Pulling(handle, ciphertext));
      && s.stream in after.streams && handle in after.received && Finished(after.streams[s.stream].chunks)
      && after.received[handle] == Concat(after.streams[s.stream].chunks)
      && |after.received[handle]| == s.header.plaintextSize
  {
    RunKeeps(c, START, events);
    HeadersAccount();
    var w := Run(c, START, events);
    PullKeeps(HeaderOk, c, w, handle, ciphertext);
    ReportedFinal(c, w, handle, ciphertext);
    PullIsPrefix(HeaderOk, Next(c, w, Pulling(handle, ciphertext)), handle);
  }

  lemma ReportedFinal(c: Cipher, w: World, handle: u64, ciphertext: bytes)
    requires var r := PullChunk(c, w.table, handle, ciphertext).result; r.Ok? && r.value.1
    ensures var w' := Next(c, w, Pulling(handle, ciphertext));
      && handle in w.table && handle in w'.table && w'.table[handle].Pull? && w'.table[handle].finalSeen
      && w'.table[handle].stream == w.table[handle].stream && w'.table[handle].header == w.table[handle].header
  {
  }

  /** A stream whose push overran, seen from the table. */
  ghost predicate Overran(w: World, id: StreamId) {
    && id in w.streams && !Finished(w.streams[id].chunks)
    && forall h :: h in w.table && w.table[h].Push? && w.table[h].stream == id ==>
         w.table[h].streamSeen > w.table[h].header.streamSize
  }

  lemma OverranNext(c: Cipher, w: World, e: Event, id: StreamId)
    requires Overran(w, id) && Ideal(c, w, e)
    ensures Overran(Next(c, w, e), id) && Next(c, w, e).streams[id] == w.streams[id]
  {
  }

  /** A session that overran can never complete: whatever follows, its stream releases nothing more
      and stays unfinished. */
  lemma {:induction false} OverrunNeverCompletes(c: Cipher, w: World, events: seq<Event>, id: StreamId)
    requires Overran(w, id) && IdealRun(c, w, events)
    ensures Overran(Run(c, w, events), id) && Run(c, w, events).streams[id] == w.streams[id]
    decreases |events|
  {
    if events != [] {
      OverranNext(c, w, events[0], id);
      OverrunNeverCompletes(c, Next(c, w, events[0]), events[1..], id);
    }
  }

  /** An overrunning push makes its stream one of those. */
  lemma OverrunIsOverran(c: Cipher, events: seq<Event>, handle: u64, final: bool, plaintext: bytes)
    requires Expands(c) && IdealRun(c, START, events)
    requires PushChunk(c, Run(c, START, events).table, handle, final, plaintext).result.Err?
    requires PushChunk(c, Run(c, START, events).table, handle, final, plaintext).table != Run(c, START, events).table
    ensures Overran(Next(c, Run(c, START, events), Pushing(handle, final, plaintext)),
                    Run(c, START, events).table[handle].stream)
  {
    RunKeeps(c, START, events);
    OverrunStep(HeaderOk, c, Run(c, START, events), handle, final, plaintext);
  }

  lemma OverrunStep(ok: HeaderRule, c: Cipher, w: World, handle: u64, final: bool, plaintext: bytes)
    requires Inv(ok, w)
    requires PushChunk(c, w.table, handle, final, plaintext).result.Err?
    requires PushChunk(c, w.table, handle, final, plaintext).table != w.table
    ensures Overran(Next(c, w, Pushing(handle, final, plaintext)), w.table[handle].stream)
  {
    assert PushOk(w.table[handle], w.streams[w.table[handle].stream].header, w.streams[w.table[handle].stream].chunks);
  }

  /** No honest chunk is refused: if the cipher opens what it sealed, a pull that is in step accepts
      the next released chunk and returns it. */
  lemma NextChunkAccepted(c: Cipher, events: seq<Event>, handle: u64, ciphertext: bytes)
    requires Expands(c) && IdealRun(c, START, events)
    requires handle in Run(c, START, events).table && Run(c, START, events).table[handle].Pull?
    requires var w := Run(c, START, events);
      var s := w.table[handle];
      && s.stream in w.streams && s.index < |w.streams[s.stream].chunks|
      && var chunk := w.streams[s.stream].chunks[s.index];
         && chunk.header == s.header.bytes && |ciphertext| == |chunk.plaintext| + ABYTES
         && c.open(s.stream, s.index, s.header.bytes, ciphertext) == Some((chunk.plaintext, chunk.final))
    ensures var w := Run(c, START, events);
      var chunk := w.streams[w.table[handle].stream].chunks[w.table[handle].index];
      PullChunk(c, w.table, handle, ciphertext).result == Ok((chunk.plaintext, chunk.final))
  {
    RunKeeps(c, START, events);
    HeadersAccount();
    ChunkAccepted(HeaderOk, c, Run(c, START, events), handle, ciphertext);
  }

  lemma ChunkAccepted(ok: HeaderRule, c: Cipher, w: World, handle: u64, ciphertext: bytes)
    requires Accounts(ok) && Inv(ok, w) && handle in w.table && w.table[handle].Pull?
    requires var s := w.table[handle];
      && s.stream in w.streams && s.index < |w.streams[s.stream].chunks|
      && var chunk := w.streams[s.stream].chunks[s.index];
         && chunk.header == s.header.bytes && |ciphertext| == |chunk.plaintext| + ABYTES
         && c.open(s.stream, s.index, s.header.bytes, ciphertext) == Some((chunk.plaintext, chunk.final))
    ensures var chunk := w.streams[w.table[handle].stream].chunks[w.table[handle].index];
      PullChunk(c, w.table, handle, ciphertext).result == Ok((chunk.plaintext, chunk.final))
  {
    var s := w.table[handle];
    var stream := w.streams[s.stream];
    assert StreamOk(ok, stream.header, stream.chunks);
    NextChunk(ok, s, s.header, stream.chunks, w.received[handle]);
  }
}
