/** When a push session can still complete: exactly when the bytes it has left, cut at 64 KiB, fit in
    what is left of the stream size. */
module AttachmentFinish {
  import opened Bytes
  import opened AttachmentSizes
  import opened Attachment
  import opened AttachmentRuns

  /** Pushing the pieces in order, the last as the final chunk, is accepted throughout. */
  predicate AcceptsAll(c: Cipher, table: Table, handle: u64, pieces: seq<bytes>)
    decreases |pieces|
  {
    pieces != [] &&
    var step := PushChunk(c, table, handle, |pieces| == 1, pieces[0]);
    step.result.Ok? && (|pieces| == 1 || AcceptsAll(c, step.table, handle, pieces[1..]))
  }

  ghost predicate CanFinish(c: Cipher, table: Table, handle: u64) {
    exists pieces: seq<bytes> :: AcceptsAll(c, table, handle, pieces)
  }

  /** The bytes left, in as few chunks as they take, fit in what is left of the stream. */
  predicate RoomLeft(s: Session) {
    && s.Push? && !s.finalSeen && s.plaintextSeen <= s.header.plaintextSize
    && var left := s.header.plaintextSize - s.plaintextSeen;
       s.streamSeen + left + ABYTES * ChunkCount(left) <= s.header.streamSize
  }

  /** When one chunk is accepted, and the session after it. */
  lemma PushAccepted(c: Cipher, table: Table, handle: u64, final: bool, piece: bytes)
    requires Expands(c) && handle in table && table[handle].Push?
    ensures var s, step := table[handle], PushChunk(c, table, handle, final, piece);
      var seen := s.plaintextSeen + |piece|;
      && (step.result.Ok? <==>
            && |piece| <= CHUNK_BYTES && !s.finalSeen && s.streamSeen + |piece| + ABYTES <= s.header.streamSize
            && (if final then seen == s.header.plaintextSize else seen < s.header.plaintextSize))
      && (step.result.Ok? ==> step.table == table[handle := s.(index := s.index + 1, plaintextSeen := seen,
            streamSeen := s.streamSeen + |piece| + ABYTES, finalSeen := final)])
  {
    var s := table[handle];
    assert |c.seal(s.stream, s.index, s.header.bytes, piece, final)| == |piece| + ABYTES;
  }

  /** One more chunk, of up to 64 KiB, covers at most one more unit of the count. */
  lemma ChunkCountStep(left: nat, piece: nat)
    requires piece <= CHUNK_BYTES && piece <= left
    ensures ChunkCount(left) <= ChunkCount(left - piece) + 1
    ensures left > CHUNK_BYTES ==> ChunkCount(left) == ChunkCount(left - CHUNK_BYTES) + 1
    ensures left <= CHUNK_BYTES ==> ChunkCount(left) == 1
  {
  }

  lemma {:induction false} AcceptedHasRoom(c: Cipher, table: Table, handle: u64, pieces: seq<bytes>)
    requires Expands(c) && handle in table && table[handle].Push? && AcceptsAll(c, table, handle, pieces)
    ensures RoomLeft(table[handle])
    decreases |pieces|
  {
    var s := table[handle];
    PushAccepted(c, table, handle, |pieces| == 1, pieces[0]);
    ChunkCountStep(s.header.plaintextSize - s.plaintextSeen, |pieces[0]|);
    if |pieces| > 1 {
      AcceptedHasRoom(c, PushChunk(c, table, handle, false, pieces[0]).table, handle, pieces[1..]);
    }
  }

  /** The source's own cut: full chunks, and what remains as the final one. */
  function Cut(data: bytes): (pieces: seq<bytes>)
    ensures pieces != []
    decreases |data|
  {
    if |data| <= CHUNK_BYTES then [data] else [data[..CHUNK_BYTES]] + Cut(data[CHUNK_BYTES..])
  }

  lemma {:induction false} CutAccepted(c: Cipher, table: Table, handle: u64, data: bytes)
    requires Expands(c) && handle in table && RoomLeft(table[handle])
    requires |data| == table[handle].header.plaintextSize - table[handle].plaintextSeen
    ensures AcceptsAll(c, table, handle, Cut(data))
    decreases |data|
  {
    ChunkCountStep(|data|, 0);
    if |data| <= CHUNK_BYTES {
      PushAccepted(c, table, handle, true, data);
    } else {
      var piece, rest := data[..CHUNK_BYTES], data[CHUNK_BYTES..];
      PushAccepted(c, table, handle, false, piece);
      var step := PushChunk(c, table, handle, false, piece);
      CutAccepted(c, step.table, handle, rest);
      assert Cut(data)[0] == piece && Cut(data)[1..] == Cut(rest);
    }
  }

  lemma CanFinishExactly(c: Cipher, table: Table, handle: u64)
    requires Expands(c) && handle in table && table[handle].Push?
    ensures CanFinish(c, table, handle) <==> RoomLeft(table[handle])
  {
    if RoomLeft(table[handle]) {
      var data: bytes := seq(table[handle].header.plaintextSize - table[handle].plaintextSeen, _ => 0);
      CutAccepted(c, table, handle, data);
    }
    forall pieces: seq<bytes> | AcceptsAll(c, table, handle, pieces)
      ensures RoomLeft(table[handle])
    {
      AcceptedHasRoom(c, table, handle, pieces);
    }
  }

  /** Every push that was opened completes when its data is cut at 64 KiB. */
  lemma CutAlwaysCompletes(c: Cipher, table: Table, e: Event, data: bytes)
    requires Expands(c) && e.CreatingPush? && |data| == e.plaintextSize
    requires CreatePush(table, e.plaintextSize, e.chunkSize, e.bucketSize, e.metadataHash, e.stream, e.drawn).result.Ok?
    ensures var step :=
      CreatePush(table, e.plaintextSize, e.chunkSize, e.bucketSize, e.metadataHash, e.stream, e.drawn);
      AcceptsAll(c, step.table, step.result.value, Cut(data))
  {
    CreatePushOpens(table, e);
    var step := CreatePush(table, e.plaintextSize, e.chunkSize, e.bucketSize, e.metadataHash, e.stream, e.drawn);
    FreshHasRoom(e.stream, step.table[step.result.value].header);
    CutAccepted(c, step.table, step.result.value, data);
  }

  lemma FreshHasRoom(stream: StreamId, h: Header)
    requires HeaderOk(h)
    ensures RoomLeft(Push(stream, 0, h, 0, 0, false))
  {
  }

  /** The bytes a stream has left fit in the chunks it has left. */
  predicate FitsLeft(h: Header, chunks: seq<Chunk>) {
    && |Concat(chunks)| <= h.plaintextSize
    && |chunks| + ChunkCount(h.plaintextSize - |Concat(chunks)|) <= ChunkCount(h.plaintextSize)
  }

  lemma RoomIs(ok: HeaderRule, s: Session, h: Header, chunks: seq<Chunk>)
    requires Accounts(ok) && s.Push? && StreamOk(ok, h, chunks) && PushOk(s, h, chunks)
    ensures RoomLeft(s) <==> !Finished(chunks) && s.streamSeen <= h.streamSize && FitsLeft(h, chunks)
  {
  }

  lemma FinishesExactly(ok: HeaderRule, c: Cipher, w: World, handle: u64)
    requires Accounts(ok) && Inv(ok, w) && Expands(c) && handle in w.table && w.table[handle].Push?
    ensures w.table[handle].stream in w.streams
    ensures var s, chunks := w.table[handle], w.streams[w.table[handle].stream].chunks;
      CanFinish(c, w.table, handle) <==>
        !Finished(chunks) && s.streamSeen <= s.header.streamSize && FitsLeft(s.header, chunks)
  {
    CanFinishExactly(c, w.table, handle);
    var stream := w.streams[w.table[handle].stream];
    RoomIs(ok, w.table[handle], stream.header, stream.chunks);
  }

  /** In any run: a push can still complete exactly when it has not finished or overrun, and the bytes
      left fit in the chunks left. */
  lemma PushCanFinishExactly(c: Cipher, events: seq<Event>, w: World, handle: u64)
    requires Expands(c) && IdealRun(c, START, events) && w == Run(c, START, events)
    requires handle in w.table && w.table[handle].Push?
    ensures w.table[handle].stream in w.streams
    ensures var s, chunks := w.table[handle], w.streams[w.table[handle].stream].chunks;
      CanFinish(c, w.table, handle) <==>
        !Finished(chunks) && s.streamSeen <= s.header.streamSize && FitsLeft(s.header, chunks)
  {
    RunKeeps(c, START, events);
    HeadersAccount();
    FinishesExactly(HeaderOk, c, w, handle);
  }
}
