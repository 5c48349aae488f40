/** When a push or a pull session opens, and as what: the header laid down by the sender, the metadata
    it was bound to, and room in the table decide it (`create_push` and `create_pull` of attachment.rs). */
module AttachmentOpening {
  import opened Bytes
  import opened Digits
  import opened AttachmentSizes
  import opened Attachment
  import opened AttachmentRuns

  /** The bytes on the wire for a plaintext cut at 64 KiB. */
  function StreamBytes(plaintextSize: nat): nat {
    plaintextSize + ABYTES * ChunkCount(plaintextSize)
  }

  /** A declared bucket is the least one that holds the stream and both headers. */
  predicate LeastBucket(plaintextSize: nat, bucketSize: nat) {
    && bucketSize in BUCKETS && Fits(bucketSize, StreamBytes(plaintextSize))
    && forall b :: b in BUCKETS && Fits(b, StreamBytes(plaintextSize)) ==> bucketSize <= b
  }

  lemma LargestBucket(b: u64)
    requires b in BUCKETS
    ensures b <= 67_108_864
  {
  }

  lemma StreamSizeExactly(plaintextSize: u64)
    ensures StreamBytes(plaintextSize) <= U64_MAX - CHUNK_BYTES
      ==> EncryptedStreamSize(plaintextSize, CHUNK_BYTES) == Ok(StreamBytes(plaintextSize))
    ensures EncryptedStreamSize(plaintextSize, CHUNK_BYTES).Ok?
      ==> EncryptedStreamSize(plaintextSize, CHUNK_BYTES).value == StreamBytes(plaintextSize)
  {
  }

  lemma DeclaredExactly(plaintextSize: u64, bucketSize: u64)
    ensures Declared(plaintextSize, bucketSize) <==> LeastBucket(plaintextSize, bucketSize)
  {
    StreamSizeExactly(plaintextSize);
    if Declared(plaintextSize, bucketSize) {
      BucketIsLeast(StreamBytes(plaintextSize));
    }
    if LeastBucket(plaintextSize, bucketSize) {
      LargestBucket(bucketSize);
      BucketIsLeast(StreamBytes(plaintextSize));
    }
  }

  /** The header of a declared plaintext size and bucket, bound to the hash of its metadata. */
  predicate IsHeader(h: Header, plaintextSize: u64, bucketSize: u64, metadataHash: Bytes32) {
    && bucketSize <= U32_MAX && h.plaintextSize == plaintextSize && h.streamSize == StreamBytes(plaintextSize)
    && h.bytes[..10] == HEADER_MAGIC + [FORMAT_VERSION, 0] && h.bytes[10..14] == ToBe(CHUNK_BYTES, 4)
    && h.bytes[14..22] == ToBe(plaintextSize, 8) && h.bytes[22..30] == ToBe(h.streamSize, 8)
    && h.bytes[30..34] == ToBe(bucketSize, 4) && h.bytes[34..66] == metadataHash
  }

  lemma MadeIsHeader(plaintextSize: u64, bucketSize: u64, metadataHash: Bytes32)
    requires Declared(plaintextSize, bucketSize)
    ensures var made :=
      MakeHeader(plaintextSize, EncryptedStreamSize(plaintextSize, CHUNK_BYTES).value, bucketSize, CHUNK_BYTES,
                 metadataHash);
      && made.Ok? && ParseHeader(made.value.bytes) == made
      && IsHeader(made.value, plaintextSize, bucketSize, metadataHash)
  {
    ParseOfMake(plaintextSize, bucketSize, metadataHash);
    StreamSizeExactly(plaintextSize);
    DeclaredExactly(plaintextSize, bucketSize);
    LargestBucket(bucketSize);
    HeaderSlices(plaintextSize, StreamBytes(plaintextSize), bucketSize, CHUNK_BYTES, metadataHash);
  }

  lemma SameHeader(h: Header, k: Header, plaintextSize: u64, bucketSize: u64, metadataHash: Bytes32)
    requires IsHeader(h, plaintextSize, bucketSize, metadataHash)
    requires IsHeader(k, plaintextSize, bucketSize, metadataHash)
    ensures h == k
  {
    assert h.bytes == h.bytes[..10] + h.bytes[10..14] + h.bytes[14..22] + h.bytes[22..30] + h.bytes[30..34]
                      + h.bytes[34..66];
    assert k.bytes == k.bytes[..10] + k.bytes[10..14] + k.bytes[14..22] + k.bytes[22..30] + k.bytes[30..34]
                      + k.bytes[34..66];
  }

  lemma ParsedIsHeader(b: Bytes66)
    requires ParseHeader(b).Ok?
    ensures var h, bucket := ParseHeader(b).value, FromBe(b[30..34]);
      bucket <= U64_MAX && Declared(h.plaintextSize, bucket) && IsHeader(h, h.plaintextSize, bucket, b[34..66])
  {
    BeOfValue(b[30..34]);
    MakeOfParse(b);
    var h, bucket := ParseHeader(b).value, FromBe(b[30..34]);
    DeclaredExactly(h.plaintextSize, bucket);
    MadeIsHeader(h.plaintextSize, bucket, b[34..66]);
  }

  /** A header parses, and as this, exactly when it is laid down for a plaintext size in its least
      bucket. */
  lemma ParseExactly(h: Header)
    ensures ParseHeader(h.bytes) == Ok(h) <==>
      exists bucketSize: u64 ::
        LeastBucket(h.plaintextSize, bucketSize)
        && IsHeader(h, h.plaintextSize, bucketSize, h.bytes[34..66])
  {
    if ParseHeader(h.bytes) == Ok(h) {
      ParsedIsHeader(h.bytes);
      DeclaredExactly(h.plaintextSize, FromBe(h.bytes[30..34]));
    }
    forall bucketSize: u64 | LeastBucket(h.plaintextSize, bucketSize)
                             && IsHeader(h, h.plaintextSize, bucketSize, h.bytes[34..66])
      ensures ParseHeader(h.bytes) == Ok(h)
    {
      DeclaredExactly(h.plaintextSize, bucketSize);
      MadeIsHeader(h.plaintextSize, bucketSize, h.bytes[34..66]);
      SameHeader(h, MakeHeader(h.plaintextSize, EncryptedStreamSize(h.plaintextSize, CHUNK_BYTES).value, bucketSize,
                               CHUNK_BYTES, h.bytes[34..66]).value, h.plaintextSize, bucketSize, h.bytes[34..66]);
    }
  }

  // Opening a session

  function PushOf(table: Table, e: Event): Step<u64>
    requires e.CreatingPush?
  {
    CreatePush(table, e.plaintextSize, e.chunkSize, e.bucketSize, e.metadataHash, e.stream, e.drawn)
  }

  function PullOf(table: Table, e: Event): Step<u64>
    requires e.CreatingPull?
  {
    CreatePull(table, e.stream, e.headerBytes, e.metadataHash, e.drawn)
  }

  function Handle(drawn: u64): u64 {
    if drawn == 0 then 1 else drawn
  }

  predicate Room(table: Table, drawn: u64) {
    |table| < MAX_SESSIONS && Handle(drawn) !in table
  }

  lemma CreatePushIs(table: Table, e: Event)
    requires e.CreatingPush?
    ensures var step := PushOf(table, e);
      if e.chunkSize == CHUNK_BYTES && Declared(e.plaintextSize, e.bucketSize) then
        var made := MakeHeader(e.plaintextSize, EncryptedStreamSize(e.plaintextSize, CHUNK_BYTES).value, e.bucketSize,
                               CHUNK_BYTES, e.metadataHash);
        made.Ok? ==> step == Allocate(table, e.drawn, Push(e.stream, 0, made.value, 0, 0, false))
      else step.result.Err? && step.table == table
  {
  }

  /** A push opens exactly for full-size chunks in the least bucket, when the table has room; its
      session starts under the header of what was declared, bound to the metadata. */
  lemma CreatePushExactly(table: Table, e: Event)
    requires e.CreatingPush?
    ensures var step := PushOf(table, e);
      && (step.result.Ok? <==>
            e.chunkSize == CHUNK_BYTES && LeastBucket(e.plaintextSize, e.bucketSize) && Room(table, e.drawn))
      && (step.result.Err? ==> step.table == table)
      && (step.result.Ok? ==>
            && step.result.value == Handle(e.drawn) && Handle(e.drawn) in step.table
            && var h := step.table[Handle(e.drawn)].header;
               && IsHeader(h, e.plaintextSize, e.bucketSize, e.metadataHash) && ParseHeader(h.bytes) == Ok(h)
               && step.table == table[Handle(e.drawn) := Push(e.stream, 0, h, 0, 0, false)])
  {
    DeclaredExactly(e.plaintextSize, e.bucketSize);
    CreatePushIs(table, e);
    if e.chunkSize == CHUNK_BYTES && Declared(e.plaintextSize, e.bucketSize) {
      MadeIsHeader(e.plaintextSize, e.bucketSize, e.metadataHash);
    }
  }

  /** A pull opens exactly on a header that parses, shown metadata with the hash the header carries,
      when the table has room. */
  lemma CreatePullExactly(table: Table, e: Event)
    requires e.CreatingPull?
    ensures var step := PullOf(table, e);
      && (step.result.Ok? <==>
            ParseHeader(e.headerBytes).Ok? && e.metadataHash == e.headerBytes[34..66] && Room(table, e.drawn))
      && (step.result.Err? ==> step.table == table)
      && (step.result.Ok? ==>
            && step.result.value == Handle(e.drawn)
            && step.table
              == table[Handle(e.drawn) := Pull(e.stream, 0, ParseHeader(e.headerBytes).value, 0, 0, false)])
  {
    if ParseHeader(e.headerBytes).Ok? {
      MakeOfParse(e.headerBytes);
    }
  }

  /** The header an accepted push made opens a pull, anywhere there is room, for the metadata it was
      made for and no other; the pull then starts under that very header. */
  lemma PullOpensForItsMetadata(table: Table, push: Event, other: Table, pull: Event)
    requires push.CreatingPush? && pull.CreatingPull?
    requires var step := PushOf(table, push);
      step.result.Ok? && pull.headerBytes == step.table[step.result.value].header.bytes
    ensures var made, step := PushOf(table, push), PullOf(other, pull);
      && (step.result.Ok? <==> pull.metadataHash == push.metadataHash && Room(other, pull.drawn))
      && (step.result.Ok? ==>
            && step.result.value == Handle(pull.drawn)
            && step.table == other[Handle(pull.drawn) :=
                 Pull(pull.stream, 0, made.table[made.result.value].header, 0, 0, false)])
  {
    CreatePushExactly(table, push);
    CreatePullExactly(other, pull);
  }
}
