/** The process-wide table of attachment sessions, updated in place, with what each stream released
    and each pull returned as ghost history. */
module AttachmentSessions {
  import opened Bytes
  import opened AttachmentSizes
  import opened Attachment
  import opened AttachmentRuns

  lemma PushedTable(c: Cipher, w: World, handle: u64, final: bool, plaintext: bytes)
    ensures var step, w' :=
      PushChunk(c, w.table, handle, final, plaintext), Next(c, w, Pushing(handle, final, plaintext));
      && w' == World(step.table, w'.streams, w.received)
      && (step.result.Ok? && final ==> handle in step.table && step.table[handle].finalSeen)
  {
  }

  lemma PulledTable(c: Cipher, w: World, handle: u64, ciphertext: bytes)
    ensures var step, w' := PullChunk(c, w.table, handle, ciphertext), Next(c, w, Pulling(handle, ciphertext));
      && w' == World(step.table, w.streams, w'.received)
      && (step.result.Ok? && step.result.value.1 ==> handle in step.table && step.table[handle].finalSeen)
  {
  }

  lemma PushFinishes(c: Cipher, w: World, handle: u64, final: bool, plaintext: bytes)
    requires Inv(HeaderOk, w) && Expands(c)
    ensures var step, w' :=
      PushChunk(c, w.table, handle, final, plaintext), Next(c, w, Pushing(handle, final, plaintext));
      && Inv(HeaderOk, w') && w' == World(step.table, w'.streams, w.received)
      && (step.result.Ok? && final ==> Complete(w', handle))
  {
    var w' := Next(c, w, Pushing(handle, final, plaintext));
    NextKeeps(c, w, Pushing(handle, final, plaintext));
    PushedTable(c, w, handle, final, plaintext);
    if PushChunk(c, w.table, handle, final, plaintext).result.Ok? && final {
      HeadersAccount();
      FinalIsComplete(HeaderOk, w', handle);
    }
  }

  lemma PullFinishes(c: Cipher, w: World, handle: u64, ciphertext: bytes)
    requires Inv(HeaderOk, w) && Expands(c) && Ideal(c, w, Pulling(handle, ciphertext))
    ensures var step, w' := PullChunk(c, w.table, handle, ciphertext), Next(c, w, Pulling(handle, ciphertext));
      && Inv(HeaderOk, w') && w' == World(step.table, w.streams, w'.received)
      && (step.result.Ok? && step.result.value.1 ==> Complete(w', handle))
  {
    var r, w' := PullChunk(c, w.table, handle, ciphertext).result, Next(c, w, Pulling(handle, ciphertext));
    NextKeeps(c, w, Pulling(handle, ciphertext));
    PulledTable(c, w, handle, ciphertext);
    if r.Ok? && r.value.1 {
      HeadersAccount();
      FinalIsComplete(HeaderOk, w', handle);
    }
  }

  lemma CloseFinishes(c: Cipher, w: World, handle: u64, abort: bool)
    requires Inv(HeaderOk, w) && Expands(c)
    ensures Inv(HeaderOk, Next(c, w, Closing(handle, abort)))
    ensures Next(c, w, Closing(handle, abort))
      == World(CloseSession(w.table, handle, abort).table, w.streams, w.received)
    ensures CloseSession(w.table, handle, abort).result.Ok? && !abort ==> Complete(w, handle)
  {
    NextKeeps(c, w, Closing(handle, abort));
    if CloseSession(w.table, handle, abort).result.Ok? && !abort {
      HeadersAccount();
      FinalIsComplete(HeaderOk, w, handle);
    }
  }

  lemma PushCreated(c: Cipher, w: World, e: Event)
    requires e.CreatingPush?
    ensures var step, w' :=
      CreatePush(w.table, e.plaintextSize, e.chunkSize, e.bucketSize, e.metadataHash, e.stream, e.drawn), Next(c, w, e);
      w' == World(step.table, w'.streams, w.received)
  {
  }

  lemma PullCreated(c: Cipher, w: World, e: Event)
    requires e.CreatingPull?
    ensures var step, w' := CreatePull(w.table, e.stream, e.headerBytes, e.metadataHash, e.drawn), Next(c, w, e);
      w' == World(step.table, w.streams, w'.received)
  {
  }

  /** `cipher` is the library's; the history is what a bystander would have recorded. */
  class Sessions {
    const cipher: Cipher
    var table: Table
    ghost var streams: map<StreamId, Stream>
    ghost var received: map<u64, bytes>

    ghost function History(): World
      reads this
    {
      World(table, streams, received)
    }

    ghost predicate Valid()
      reads this
    {
      Expands(cipher) && Inv(HeaderOk, History())
    }

    constructor (cipher: Cipher)
      requires Expands(cipher)
      ensures this.cipher == cipher && Valid() && History() == START
    {
      this.cipher := cipher;
      table, streams, received := map[], map[], map[];
    }

    method Insert(drawn: u64, session: Session) returns (r: Result<u64>)
      modifies this`table
      ensures Step(r, table) == Allocate(old(table), drawn, session)
    {
      if |table| >= MAX_SESSIONS {
        return Err(ResourceExhausted);
      }
      var handle := if drawn == 0 then 1 else drawn;
      if handle in table {
        return Err(ResourceExhausted);
      }
      table := table[handle := session];
      return Ok(handle);
    }

    method AddPush(plaintextSize: u64, chunkSize: u32, bucketSize: u64, metadataHash: Bytes32, stream: StreamId,
                   drawn: u64)
      returns (r: Result<u64>)
      modifies this`table
      ensures Step(r, table)
        == CreatePush(old(table), plaintextSize, chunkSize, bucketSize, metadataHash, stream, drawn)
    {
      if chunkSize != CHUNK_BYTES {
        return Err(MalformedInput);
      }
      var streamSize := EncryptedStreamSize(plaintextSize, chunkSize);
      if streamSize.Err? {
        return Err(streamSize.error);
      }
      var bucket := BucketForStream(streamSize.value);
      if bucket.Err? {
        return Err(bucket.error);
      }
      if bucketSize != bucket.value {
        return Err(MalformedInput);
      }
      var header := MakeHeader(plaintextSize, streamSize.value, bucketSize, chunkSize, metadataHash);
      if header.Err? {
        return Err(header.error);
      }
      r := Insert(drawn, Session.Push(stream, 0, header.value, 0, 0, false));
    }

    method OpenPush(plaintextSize: u64, chunkSize: u32, bucketSize: u64, metadataHash: Bytes32, stream: StreamId,
                    drawn: u64)
      returns (r: Result<u64>)
      requires Valid() && stream !in streams
      modifies this
      ensures Valid()
      ensures r == CreatePush(old(table), plaintextSize, chunkSize, bucketSize, metadataHash, stream, drawn).result
      ensures History() == Next(cipher, old(History()),
                                CreatingPush(plaintextSize, chunkSize, bucketSize, metadataHash, stream, drawn))
    {
      ghost var w := History();
      ghost var e := CreatingPush(plaintextSize, chunkSize, bucketSize, metadataHash, stream, drawn);
      NextKeeps(cipher, w, e);
      PushCreated(cipher, w, e);
      r := AddPush(plaintextSize, chunkSize, bucketSize, metadataHash, stream, drawn);
      streams := Next(cipher, w, e).streams;
      assert History() == Next(cipher, w, e);
    }

    method AddPull(stream: StreamId, headerBytes: Bytes66, metadataHash: Bytes32, drawn: u64) returns (r: Result<u64>)
      modifies this`table
      ensures Step(r, table) == CreatePull(old(table), stream, headerBytes, metadataHash, drawn)
    {
      var header := ParseHeader(headerBytes);
      if header.Err? {
        return Err(header.error);
      }
      if metadataHash != header.value.bytes[34..66] {
        return Err(AuthenticationFailed);
      }
      r := Insert(drawn, Session.Pull(stream, 0, header.value, 0, 0, false));
    }

    method OpenPull(stream: StreamId, headerBytes: Bytes66, metadataHash: Bytes32, drawn: u64) returns (r: Result<u64>)
      requires Valid()
      modifies this
      ensures Valid() && r == CreatePull(old(table), stream, headerBytes, metadataHash, drawn).result
      ensures History() == Next(cipher, old(History()), CreatingPull(stream, headerBytes, metadataHash, drawn))
    {
      ghost var w := History();
      ghost var e := CreatingPull(stream, headerBytes, metadataHash, drawn);
      NextKeeps(cipher, w, e);
      PullCreated(cipher, w, e);
      r := AddPull(stream, headerBytes, metadataHash, drawn);
      received := Next(cipher, w, e).received;
      assert History() == Next(cipher, w, e);
    }

    method SealChunk(handle: u64, final: bool, plaintext: bytes) returns (r: Result<bytes>)
      modifies this`table
      ensures Step(r, table) == PushChunk(cipher, old(table), handle, final, plaintext)
    {
      if |plaintext| > CHUNK_BYTES {
        return Err(InputTooLarge);
      }
      if handle !in table {
        return Err(InvalidHandle);
      }
      var s := table[handle];
      if !s.Push? {
        return Err(WrongHandleType);
      }
      var seen := s.plaintextSeen + |plaintext|;
      if s.finalSeen || seen > s.header.plaintextSize {
        return Err(StateViolation);
      }
      if !final && seen >= s.header.plaintextSize {
        return Err(StateViolation);
      }
      if final && seen != s.header.plaintextSize {
        return Err(StateViolation);
      }
      var encrypted := cipher.seal(s.stream, s.index, s.header.bytes, plaintext, final);
      s := s.(index := s.index + 1, plaintextSeen := seen, streamSeen := s.streamSeen + |encrypted|);
      table := table[handle := s];
      if s.streamSeen > s.header.streamSize {
        return Err(StateViolation);
      }
      table := table[handle := s.(finalSeen := final)];
      return Ok(encrypted);
    }

    method Push(handle: u64, final: bool, plaintext: bytes) returns (r: Result<bytes>)
      requires Valid()
      modifies this
      ensures Valid() && r == PushChunk(cipher, old(table), handle, final, plaintext).result
      ensures History() == Next(cipher, old(History()), Pushing(handle, final, plaintext))
      ensures r.Ok? && final ==> Complete(History(), handle)
    {
      ghost var w := History();
      ghost var w' := Next(cipher, w, Pushing(handle, final, plaintext));
      PushFinishes(cipher, w, handle, final, plaintext);
      r := SealChunk(handle, final, plaintext);
      streams := w'.streams;
      assert History() == w';
    }

    method OpenChunk(handle: u64, ciphertext: bytes) returns (r: Result<(bytes, bool)>)
      modifies this`table
      ensures Step(r, table) == PullChunk(cipher, old(table), handle, ciphertext)
    {
      if |ciphertext| < ABYTES {
        return Err(MalformedInput);
      }
      if handle !in table {
        return Err(InvalidHandle);
      }
      var s := table[handle];
      if !s.Pull? {
        return Err(WrongHandleType);
      }
      if s.finalSeen || |ciphertext| > CHUNK_BYTES + ABYTES {
        return Err(StateViolation);
      }
      var answer := cipher.open(s.stream, s.index, s.header.bytes, ciphertext);
      if answer.None? {
        return Err(AuthenticationFailed);
      }
      var (plaintext, final) := answer.value;
      s := s.(index := s.index + 1);
      table := table[handle := s];
      if s.streamSeen + |ciphertext| > s.header.streamSize || s.plaintextSeen + |plaintext| > s.header.plaintextSize {
        return Err(StateViolation);
      }
      s := s.(streamSeen := s.streamSeen + |ciphertext|, plaintextSeen := s.plaintextSeen + |plaintext|);
      table := table[handle := s];
      if final && (s.streamSeen != s.header.streamSize || s.plaintextSeen != s.header.plaintextSize) {
        return Err(StateViolation);
      }
      table := table[handle := s.(finalSeen := final)];
      return Ok((plaintext, final));
    }

    method Pull(handle: u64, ciphertext: bytes) returns (r: Result<(bytes, bool)>)
      requires Valid() && Ideal(cipher, History(), Pulling(handle, ciphertext))
      modifies this
      ensures Valid() && r == PullChunk(cipher, old(table), handle, ciphertext).result
      ensures History() == Next(cipher, old(History()), Pulling(handle, ciphertext))
      ensures r.Ok? && r.value.1 ==> Complete(History(), handle)
    {
      ghost var w := History();
      ghost var w' := Next(cipher, w, Pulling(handle, ciphertext));
      PullFinishes(cipher, w, handle, ciphertext);
      r := OpenChunk(handle, ciphertext);
      received := w'.received;
      assert History() == w';
    }

    method Close(handle: u64, abort: bool) returns (r: Result<()>)
      requires Valid()
      modifies this`table
      ensures Valid() && r == CloseSession(old(table), handle, abort).result
      ensures History() == Next(cipher, old(History()), Closing(handle, abort))
      ensures r.Ok? && !abort ==> Complete(old(History()), handle)
    {
      CloseFinishes(cipher, History(), handle, abort);
      if handle !in table {
        return Err(InvalidHandle);
      }
      if !abort && !table[handle].finalSeen {
        return Err(StateViolation);
      }
      table := table - {handle};
      return Ok(());
    }
  }
}
