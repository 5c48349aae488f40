/** Sizes, buckets and the 66-byte header of an encrypted attachment (attachment.rs). */
module AttachmentSizes {
  import opened Bytes
  import opened Digits

  const CHUNK_BYTES: nat := 65_536
  const ABYTES: nat := 17
  const HEADER_BYTES: nat := 66
  const STREAM_HEADER_BYTES: nat := 24
  const BUCKETS: seq<u64> := [65_536, 262_144, 1_048_576, 4_194_304, 16_777_216, 67_108_864]
  const HEADER_MAGIC: bytes := [67, 80, 65, 70, 86, 48, 48, 49]
  const FORMAT_VERSION: byte := 1

  datatype Header = Header(bytes: Bytes66, plaintextSize: u64, streamSize: u64)

  /** Chunks a plaintext takes at the full chunk size; an empty plaintext is one empty chunk. */
  function ChunkCount(plaintextSize: nat): (n: nat)
    ensures n >= 1
  {
    if plaintextSize == 0 then 1 else (plaintextSize + CHUNK_BYTES - 1) / CHUNK_BYTES
  }

  /** `encrypted_stream_size`, with its 64-bit overflow checks. */
  function EncryptedStreamSize(plaintextSize: u64, chunkSize: u32): Result<u64>
    requires chunkSize > 0
  {
    if plaintextSize != 0 && plaintextSize + (chunkSize - 1) > U64_MAX then Err(InputTooLarge)
    else
      var count := if plaintextSize == 0 then 1 else (plaintextSize + (chunkSize - 1)) / chunkSize;
      if count * ABYTES > U64_MAX then Err(InputTooLarge)
      else if count * ABYTES + plaintextSize > U64_MAX then Err(InputTooLarge)
      else Ok(count * ABYTES + plaintextSize)
  }

  lemma StreamSizeValue(plaintextSize: u64)
    requires EncryptedStreamSize(plaintextSize, CHUNK_BYTES).Ok?
    ensures EncryptedStreamSize(plaintextSize, CHUNK_BYTES).value == plaintextSize + ABYTES * ChunkCount(plaintextSize)
  {
  }

  function FirstFit(buckets: seq<u64>, required: nat): Result<u64> {
    if buckets == [] then Err(InputTooLarge)
    else if buckets[0] >= required then Ok(buckets[0])
    else FirstFit(buckets[1..], required)
  }

  /** `bucket_for_stream`. */
  function BucketForStream(streamSize: u64): Result<u64> {
    if streamSize + HEADER_BYTES + STREAM_HEADER_BYTES > U64_MAX then Err(InputTooLarge)
    else FirstFit(BUCKETS, streamSize + HEADER_BYTES + STREAM_HEADER_BYTES)
  }

  predicate Fits(bucket: nat, streamSize: nat) {
    bucket >= streamSize + HEADER_BYTES + STREAM_HEADER_BYTES
  }

  lemma {:induction false} FirstFitIsFirst(buckets: seq<u64>, required: nat)
    ensures FirstFit(buckets, required).Ok? <==> exists b :: b in buckets && b >= required
    ensures FirstFit(buckets, required).Ok? ==>
      exists i :: 0 <= i < |buckets| && buckets[i] == FirstFit(buckets, required).value && buckets[i] >= required
                  && forall j :: 0 <= j < i ==> buckets[j] < required
  {
    if buckets != [] && buckets[0] >= required {
      assert buckets[0] in buckets;
    } else if buckets != [] {
      FirstFitIsFirst(buckets[1..], required);
      if FirstFit(buckets[1..], required).Ok? {
        var i :| 0 <= i < |buckets| - 1 && buckets[1..][i] == FirstFit(buckets, required).value
          && buckets[1..][i] >= required
                 && forall j :: 0 <= j < i ==> buckets[1..][j] < required;
        assert buckets[i + 1] == FirstFit(buckets, required).value;
        assert forall j :: 1 <= j < i + 1 ==> buckets[j] == buckets[1..][j - 1];
      }
      assert forall b :: b in buckets <==> b == buckets[0] || b in buckets[1..];
    }
  }

  /** The bucket is the least one the stream and its headers fit in, and there is none exactly when
      even the largest is too small. */
  lemma BucketIsLeast(streamSize: u64)
    ensures BucketForStream(streamSize).Ok? <==> Fits(67_108_864, streamSize)
    ensures BucketForStream(streamSize).Ok? ==>
      && BucketForStream(streamSize).value in BUCKETS
      && Fits(BucketForStream(streamSize).value, streamSize)
      && forall b :: b in BUCKETS && Fits(b, streamSize) ==> BucketForStream(streamSize).value <= b
  {
    var required := streamSize + HEADER_BYTES + STREAM_HEADER_BYTES;
    FirstFitIsFirst(BUCKETS, required);
    assert 67_108_864 == BUCKETS[5];
    assert 67_108_864 in BUCKETS;
    assert forall i, j :: 0 <= i < j < 6 ==> BUCKETS[i] < BUCKETS[j];
    forall b | b in BUCKETS ensures b <= 67_108_864 {}
    if FirstFit(BUCKETS, required).Ok? {
      var i :| 0 <= i < |BUCKETS| && BUCKETS[i] == FirstFit(BUCKETS, required).value && BUCKETS[i] >= required
               && forall j :: 0 <= j < i ==> BUCKETS[j] < required;
      forall b | b in BUCKETS && Fits(b, streamSize)
        ensures BUCKETS[i] <= b
      {
        var k :| 0 <= k < |BUCKETS| && BUCKETS[k] == b;
        assert k >= i;
      }
    }
  }

  // The header

  function HeaderBytes(plaintextSize: u64, streamSize: u64, bucketSize: u64, chunkSize: u32,
                       metadataHash: Bytes32): Bytes66 {
    HEADER_MAGIC + [FORMAT_VERSION, 0] + ToBe(chunkSize, 4) + ToBe(plaintextSize, 8) + ToBe(streamSize, 8)
    + ToBe(bucketSize, 4) + metadataHash
  }

  /** `make_header`. */
  function MakeHeader(plaintextSize: u64, streamSize: u64, bucketSize: u64, chunkSize: u32,
                      metadataHash: bytes): Result<Header> {
    if |metadataHash| != 32 || streamSize + HEADER_BYTES + STREAM_HEADER_BYTES > bucketSize then Err(InputTooLarge)
    else if bucketSize > U32_MAX then Err(InputTooLarge)
    else Ok(Header(HeaderBytes(plaintextSize, streamSize, bucketSize, chunkSize, metadataHash), plaintextSize,
                   streamSize))
  }

  /** `parse_header`. */
  function ParseHeader(b: Bytes66): Result<Header> {
    if b[..8] != HEADER_MAGIC || b[8] != FORMAT_VERSION || b[9] != 0 then Err(UnsupportedVersion)
    else
      BeOfValue(b[10..14]);
      BeOfValue(b[14..22]);
      BeOfValue(b[22..30]);
      BeOfValue(b[30..34]);
      var chunkSize, plaintextSize, streamSize, bucketSize :=
        FromBe(b[10..14]), FromBe(b[14..22]), FromBe(b[22..30]), FromBe(b[30..34]);
      if chunkSize != CHUNK_BYTES then Err(MalformedInput)
      else
        var bucket :- BucketForStream(streamSize);
        if bucket != bucketSize then Err(MalformedInput)
        else
          var stream :- EncryptedStreamSize(plaintextSize, chunkSize);
          if stream != streamSize then Err(MalformedInput)
          else MakeHeader(plaintextSize, streamSize, bucketSize, chunkSize, b[34..66])
  }

  lemma HeaderSlices(p: u64, s: u64, b: u32, c: u32, h: Bytes32)
    ensures var bytes := HeaderBytes(p, s, b, c, h);
      && bytes[..8] == HEADER_MAGIC && bytes[8] == FORMAT_VERSION && bytes[9] == 0
      && bytes[10..14] == ToBe(c, 4) && bytes[14..22] == ToBe(p, 8) && bytes[22..30] == ToBe(s, 8)
      && bytes[30..34] == ToBe(b, 4) && bytes[34..66] == h
  {
  }

  /** What `create_push` accepts: the declared bucket is the one the stream size asks for. */
  predicate Declared(plaintextSize: u64, bucketSize: u64) {
    && EncryptedStreamSize(plaintextSize, CHUNK_BYTES).Ok?
    && BucketForStream(EncryptedStreamSize(plaintextSize, CHUNK_BYTES).value) == Ok(bucketSize)
  }

  /** `parse_header` inverts `make_header` on every accepted create. */
  lemma ParseOfMake(plaintextSize: u64, bucketSize: u64, metadataHash: Bytes32)
    requires Declared(plaintextSize, bucketSize)
    ensures var made :=
      MakeHeader(plaintextSize, EncryptedStreamSize(plaintextSize, CHUNK_BYTES).value, bucketSize, CHUNK_BYTES,
                 metadataHash);
      made.Ok? && ParseHeader(made.value.bytes) == made
  {
    var streamSize := EncryptedStreamSize(plaintextSize, CHUNK_BYTES).value;
    BucketIsLeast(streamSize);
    assert bucketSize <= 67_108_864;
    HeaderSlices(plaintextSize, streamSize, bucketSize, CHUNK_BYTES, metadataHash);
    BeRoundTrip(CHUNK_BYTES, 4);
    BeRoundTrip(plaintextSize, 8);
    BeRoundTrip(streamSize, 8);
    BeRoundTrip(bucketSize, 4);
  }

  /** A parsed header is the header of an accepted create, and carries exactly the bytes parsed. */
  lemma MakeOfParse(b: Bytes66)
    requires ParseHeader(b).Ok?
    ensures ParseHeader(b).value.bytes == b
    ensures var h := ParseHeader(b).value;
      EncryptedStreamSize(h.plaintextSize, CHUNK_BYTES) == Ok(h.streamSize) && BucketForStream(h.streamSize).Ok?
  {
    BeOfValue(b[10..14]);
    BeOfValue(b[14..22]);
    BeOfValue(b[22..30]);
    BeOfValue(b[30..34]);
    var h := ParseHeader(b).value;
    assert b == b[..8] + [b[8], b[9]] + b[10..14] + b[14..22] + b[22..30] + b[30..34] + b[34..66];
  }
}
