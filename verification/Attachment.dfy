/** Attachment stream sessions (attachment.rs): a table of push and pull sessions over an ideal
    secretstream.

    The cipher is abstract. What is assumed of it is said where it is used: a ciphertext is
    `ABYTES` longer than its plaintext, and a pull accepts nothing but the chunk pushed at its
    position in the same stream, under the same header, after that chunk was released. */
module Attachment {
  import opened Bytes
  import opened AttachmentSizes

  const MAX_SESSIONS: nat := 64

  /** A stream is named by its key and its 24-byte stream header. */
  datatype StreamId = StreamId(key: Bytes32, streamHeader: Bytes24)

  datatype Session =
    | Push(stream: StreamId, index: nat, header: Header, plaintextSeen: nat, streamSeen: nat, finalSeen: bool)
    | Pull(stream: StreamId, index: nat, header: Header, plaintextSeen: nat, streamSeen: nat, finalSeen: bool)

  type Table = map<u64, Session>

  /** Seal and open the chunk at an index of a stream, with the attachment header as associated
      data. */
  datatype Cipher = Cipher(
    seal: (StreamId, nat, bytes, bytes, bool) -> bytes,
    open: (StreamId, nat, bytes, bytes) -> Option<(bytes, bool)>)

  ghost predicate Expands(c: Cipher) {
    forall id, i, header, plaintext, final ::
      |c.seal(id, i, header, plaintext, final)| == |plaintext| + ABYTES
  }

  // The operations, as functions of the table

  datatype Step<+T> = Step(result: Result<T>, table: Table)

  /** `allocate_handle`, given the handle drawn. */
  function Allocate(table: Table, drawn: u64, session: Session): Step<u64> {
    var handle := if drawn == 0 then 1 else drawn;
    if |table| >= MAX_SESSIONS then Step(Err(ResourceExhausted), table)
    else if handle in table then Step(Err(ResourceExhausted), table)
    else Step(Ok(handle), table[handle := session])
  }

  /** `create_push`, given the key, stream header and handle drawn. */
  function CreatePush(table: Table, plaintextSize: u64, chunkSize: u32, bucketSize: u64, metadataHash: Bytes32,
                      stream: StreamId, drawn: u64): Step<u64>
  {
    if chunkSize != CHUNK_BYTES then Step(Err(MalformedInput), table)
    else
      var streamSize := EncryptedStreamSize(plaintextSize, chunkSize);
      if streamSize.Err? then Step(Err(streamSize.error), table)
      else
        var bucket := BucketForStream(streamSize.value);
        if bucket.Err? then Step(Err(bucket.error), table)
        else if bucketSize != bucket.value then Step(Err(MalformedInput), table)
        else
          var header := MakeHeader(plaintextSize, streamSize.value, bucketSize, chunkSize, metadataHash);
          if header.Err? then Step(Err(header.error), table)
          else Allocate(table, drawn, Push(stream, 0, header.value, 0, 0, false))
  }

  /** `create_pull`, given the hash of the metadata it is shown and the handle drawn. */
  function CreatePull(table: Table, stream: StreamId, headerBytes: Bytes66, metadataHash: Bytes32,
                      drawn: u64): Step<u64> {
    var header := ParseHeader(headerBytes);
    if header.Err? then Step(Err(header.error), table)
    else if metadataHash != header.value.bytes[34..66] then Step(Err(AuthenticationFailed), table)
    else Allocate(table, drawn, Pull(stream, 0, header.value, 0, 0, false))
  }

  /** `push_chunk`. A chunk that overruns the stream size is refused after the counters moved. */
  function PushChunk(c: Cipher, table: Table, handle: u64, final: bool, plaintext: bytes): Step<bytes> {
    if |plaintext| > CHUNK_BYTES then Step(Err(InputTooLarge), table)
    else if handle !in table then Step(Err(InvalidHandle), table)
    else if !table[handle].Push? then Step(Err(WrongHandleType), table)
    else
      var s := table[handle];
      var seen := s.plaintextSeen + |plaintext|;
      if s.finalSeen || seen > s.header.plaintextSize then Step(Err(StateViolation), table)
      else if !final && seen >= s.header.plaintextSize then Step(Err(StateViolation), table)
      else if final && seen != s.header.plaintextSize then Step(Err(StateViolation), table)
      else
        var encrypted := c.seal(s.stream, s.index, s.header.bytes, plaintext, final);
        var moved := s.(index := s.index + 1, plaintextSeen := seen, streamSeen := s.streamSeen + |encrypted|);
        if moved.streamSeen > s.header.streamSize then Step(Err(StateViolation), table[handle := moved])
        else Step(Ok(encrypted), table[handle := moved.(finalSeen := final)])
  }

  /** `pull_chunk`. A failed open leaves the stream where it was; the size checks come after it
      moved, and the finality check after the counters moved. */
  function PullChunk(c: Cipher, table: Table, handle: u64, ciphertext: bytes): Step<(bytes, bool)> {
    if |ciphertext| < ABYTES then Step(Err(MalformedInput), table)
    else if handle !in table then Step(Err(InvalidHandle), table)
    else if !table[handle].Pull? then Step(Err(WrongHandleType), table)
    else
      var s := table[handle];
      if s.finalSeen || |ciphertext| > CHUNK_BYTES + ABYTES then Step(Err(StateViolation), table)
      else
        match c.open(s.stream, s.index, s.header.bytes, ciphertext)
        case None => Step(Err(AuthenticationFailed), table)
        case Some((plaintext, final)) =>
          var advanced := s.(index := s.index + 1);
          if s.streamSeen + |ciphertext| > s.header.streamSize || s.plaintextSeen + |plaintext| > s.header.plaintextSize
          then Step(Err(StateViolation), table[handle := advanced])
          else
            var moved :=
              advanced.(streamSeen := s.streamSeen + |ciphertext|, plaintextSeen := s.plaintextSeen + |plaintext|);
            if final && (moved.streamSeen != s.header.streamSize || moved.plaintextSeen != s.header.plaintextSize)
            then Step(Err(StateViolation), table[handle := moved])
            else Step(Ok((plaintext, final)), table[handle := moved.(finalSeen := final)])
  }

  /** `close_session`. */
  function CloseSession(table: Table, handle: u64, abort: bool): Step<()> {
    if handle !in table then Step(Err(InvalidHandle), table)
    else if !abort && !table[handle].finalSeen then Step(Err(StateViolation), table)
    else Step(Ok(()), table - {handle})
  }
}
