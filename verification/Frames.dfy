/** The byte framing of protocol.rs as an interface: what the projection and device-state codecs
    need of it, and nothing more. `ByteFrames` is the only instance. */
module Frames {
  import opened Bytes
  import opened Framing

  datatype Frames = Frames(
    putInt: (nat, nat, bytes) -> bytes,
    readInt: (bytes, nat) -> Parsed<nat>,
    put: (bytes, bytes) -> bytes,
    take: (bytes, nat) -> Parsed<bytes>,
    putFrame: (bytes, bytes) -> bytes,
    readFrame: bytes -> Parsed<bytes>)

  ghost predicate Sound(f: Frames) {
    && (forall s: bytes, n: nat :: f.readInt(s, n).Ok? ==>
          s == f.putInt(f.readInt(s, n).value.0, n, f.readInt(s, n).value.1) && Fits(f.readInt(s, n).value.0, n))
    && (forall s: bytes, n: nat :: f.take(s, n).Ok? ==>
          s == f.put(f.take(s, n).value.0, f.take(s, n).value.1) && |f.take(s, n).value.0| == n)
    && (forall s: bytes :: f.readFrame(s).Ok? ==>
          && s == f.putFrame(f.readFrame(s).value.0, f.readFrame(s).value.1)
          && |f.readFrame(s).value.0| <= MAX_INPUT_BYTES)
  }

  ghost predicate Complete(f: Frames) {
    && (forall v: nat, n: nat, t: bytes :: Fits(v, n) ==> f.readInt(f.putInt(v, n, t), n) == Ok((v, t)))
    && (forall b: bytes, t: bytes :: f.take(f.put(b, t), |b|) == Ok((b, t)))
    && (forall b: bytes, t: bytes :: |b| <= MAX_INPUT_BYTES ==> f.readFrame(f.putFrame(b, t)) == Ok((b, t)))
  }

  function ReadWidth(s: bytes, n: nat): Parsed<nat> {
    if n == 1 || n == 2 || n == 4 || n == 8 then ReadInt(s, n) else Err(InternalFailure)
  }

  function ByteFrames(): Frames {
    Frames((v: nat, n: nat, t: bytes) => PutInt(v, n, t), (s: bytes, n: nat) => ReadWidth(s, n),
           (b: bytes, t: bytes) => Put(b, t), (s: bytes, n: nat) => Take(s, n),
           (b: bytes, t: bytes) => PutFrame(b, t), (s: bytes) => ReadFrame(s))
  }

  lemma ByteFramesSound()
    ensures Sound(ByteFrames())
  {
  }

  lemma ByteFramesComplete()
    ensures Complete(ByteFrames())
  {
    forall v: nat, n: nat, t: bytes | Fits(v, n)
      ensures ReadInt(PutInt(v, n, t), n) == Ok((v, t))
    {
      ReadPutInt(v, n, t);
    }
    forall b: bytes, t: bytes
      ensures Take(Put(b, t), |b|) == Ok((b, t))
    {
      TakePut(b, t);
    }
    forall b: bytes, t: bytes | |b| <= MAX_INPUT_BYTES
      ensures ReadFrame(PutFrame(b, t)) == Ok((b, t))
    {
      ReadPutFrame(b, t);
    }
  }

  /** What each writer adds to the bytes that follow. */
  ghost predicate Sized(f: Frames) {
    && (forall v: nat, n: nat, t: bytes :: |f.putInt(v, n, t)| == n + |t|)
    && (forall b: bytes, t: bytes :: |f.put(b, t)| == |b| + |t|)
    && (forall b: bytes, t: bytes :: |f.putFrame(b, t)| == 4 + |b| + |t|)
  }

  lemma ByteFramesSized()
    ensures Sized(ByteFrames())
  {
  }

  // The typed readers. The refusals below the reads are there for the types: a framing that is
  // `Sound` never reaches them.

  function ReadU8(f: Frames, s: bytes): Parsed<byte> {
    var (v, t) :- f.readInt(s, 1);
    if v <= U8_MAX then Ok((v, t)) else Err(InternalFailure)
  }

  function ReadU16(f: Frames, s: bytes): Parsed<u16> {
    var (v, t) :- f.readInt(s, 2);
    if v <= U16_MAX then Ok((v, t)) else Err(InternalFailure)
  }

  function ReadU32(f: Frames, s: bytes): Parsed<u32> {
    var (v, t) :- f.readInt(s, 4);
    if v <= U32_MAX then Ok((v, t)) else Err(InternalFailure)
  }

  function ReadU64(f: Frames, s: bytes): Parsed<u64> {
    var (v, t) :- f.readInt(s, 8);
    if v <= U64_MAX then Ok((v, t)) else Err(InternalFailure)
  }

  /** `Reader::array`. */
  function ReadArray(f: Frames, s: bytes, n: nat): (r: Parsed<bytes>)
    ensures r.Ok? ==> |r.value.0| == n
  {
    var (b, t) :- f.take(s, n);
    if |b| == n then Ok((b, t)) else Err(InternalFailure)
  }

  function PutFlag(f: Frames, v: bool, t: bytes): bytes {
    f.putInt(if v then 1 else 0, 1, t)
  }

  /** `Reader::boolean`. */
  function ReadFlag(f: Frames, s: bytes): Parsed<bool> {
    var (v, t) :- f.readInt(s, 1);
    if v == 0 then Ok((false, t))
    else if v == 1 then Ok((true, t))
    else Err(MalformedInput)
  }

  lemma FlagSound(f: Frames, s: bytes)
    requires Sound(f) && ReadFlag(f, s).Ok?
    ensures s == PutFlag(f, ReadFlag(f, s).value.0, ReadFlag(f, s).value.1)
  {
  }

  lemma FlagComplete(f: Frames, v: bool, t: bytes)
    requires Complete(f)
    ensures ReadFlag(f, PutFlag(f, v, t)) == Ok((v, t))
  {
    assert Fits(if v then 1 else 0, 1);
  }
}
