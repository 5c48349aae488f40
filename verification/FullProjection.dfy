/** An event whose projection fills the whole input limit while its CBOR fits: operation 1 accepts it,
    and operation 2 cannot give it back. */
module FullProjection {
  import opened Bytes
  import opened Texts
  import opened Lists
  import opened Frames
  import Cbor
  import E = Event
  import P = Projection
  import W = Wire

  /** What is used of UTF-8: ASCII is valid, one scalar a byte. */
  ghost predicate Ascii(rules: TextRules) {
    forall b: bytes :: (forall i :: 0 <= i < |b| ==> b[i] < 128) ==> rules.utf8(b) && rules.scalars(b) == |b|
  }

  const THUMBNAIL: nat := 65_286

  function Picture(): E.Attachment {
    E.Attachment(seq(43, _ => 65), seq(32, _ => 0), seq(66, _ => 0), seq(24, _ => 0), 0, 0, 0,
                 [65], [65], 0, 0, 0, None, Some(seq(THUMBNAIL, _ => 0)))
  }

  /** A message without text, and four pictures. */
  function Album(): E.ApplicationEvent {
    E.ApplicationEvent(1, seq(16, _ => 0), seq(32, _ => 0), 1, seq(16, _ => 0), seq(16, _ => 0), 1, 0, [],
                       E.MessageCreate(seq(16, _ => 0), 1, [], None, None,
                                       [Picture(), Picture(), Picture(), Picture()]))
  }

  function IsPicture(): E.Attachment -> bool {
    (a: E.Attachment) => a == Picture()
  }

  lemma AlbumOk(rules: TextRules)
    requires Ascii(rules)
    ensures E.EventOk(rules, Album())
  {
    var a := Picture();
    assert E.AttachmentOk(rules, a) by {
      assert forall i :: 0 <= i < 43 ==> a.capabilityId[i] == 65;
      assert a.displayName[0] == 65;
    }
    assert forall i :: 0 <= i < 4 ==> Album().body.attachments[i] == a;
  }

  // The projection is as long as an input may be

  lemma PictureFrames(f: Frames, t: bytes)
    requires Sized(f)
    ensures |P.PutAttachment(f, Picture(), t)| == 65_503 + |t|
  {
    var a := Picture();
    var key: Bytes32, header: Bytes66, streamHeader: Bytes24 := a.key, a.header, a.streamHeader;
    var s := P.PutDescription(f, a, t);
    assert |s| == 65_310 + |t|;
    assert |P.PutStream(f, a, s)| == 193 + |s|;
  }

  lemma AlbumFrames(f: Frames, rules: TextRules)
    requires Sized(f)
    ensures 8 + |P.PutProjection(f, P.Bodies(f, rules), Album(), [])| == MAX_IO_BYTES
  {
    var e := Album();
    forall a: E.Attachment, t: bytes | IsPicture()(a)
      ensures |P.AttachmentWriter(f)(a, t)| == 65_503 + |t|
    {
      PictureFrames(f, t);
    }
    ListSize(P.AttachmentWriter(f), IsPicture(), 65_503, e.body.attachments, []);
    var s := P.PutAttachmentField(f, e.body.attachments, []);
    assert |s| == 262_013;
    MessageFrames(f, s);
    FixedFrames(f, P.PutReferences(f, [], P.PutBody(f, e.body, [])));
  }

  lemma MessageFrames(f: Frames, t: bytes)
    requires Sized(f)
    ensures |P.PutMessage(f, Album().body, t)| == 23 + |t|
  {
    var id: Bytes16 := Album().body.messageId;
  }

  lemma FixedFrames(f: Frames, t: bytes)
    requires Sized(f)
    ensures |P.PutFixed(f, Album(), t)| == 99 + |t|
  {
    var e := Album();
    var a: Bytes16, b: Bytes32, c: Bytes16, d: Bytes16 := e.eventId, e.conversationId, e.senderUser, e.senderDevice;
  }

  // Its CBOR is shorter

  function HeadBytes(n: nat): nat {
    if n < 24 then 1 else if n <= U8_MAX then 2 else if n <= U16_MAX then 3 else if n <= U32_MAX then 5 else 9
  }

  /** The exact cost of each keyed item. */
  ghost predicate Measured(w: W.Wire) {
    && (forall n: u64, t: bytes :: |w.putMap(n, t)| == HeadBytes(n) + |t|)
    && (forall k: u64, t: bytes :: |w.putKey(k, t)| == HeadBytes(k) + |t|)
    && (forall k: u64, n: u64, t: bytes :: |w.putUint(k, n, t)| == HeadBytes(k) + HeadBytes(n) + |t|)
    && (forall k: u64, b: bytes, t: bytes :: |w.putBytes(k, b, t)| == HeadBytes(k) + HeadBytes(|b|) + |b| + |t|)
    && (forall k: u64, b: bytes, t: bytes :: |w.putText(k, b, t)| == HeadBytes(k) + HeadBytes(|b|) + |b| + |t|)
    && (forall k: u64, t: bytes :: |w.putOptionalBytes(k, None, t)| == HeadBytes(k) + 1 + |t|)
    && (forall k: u64, t: bytes :: |w.putOptionalText(k, None, t)| == HeadBytes(k) + 1 + |t|)
    && (forall k: u64, n: nat, t: bytes :: |w.putArray(k, n, t)| == HeadBytes(k) + HeadBytes(n) + |t|)
  }

  lemma HeadMeasured(major: nat, n: nat, t: bytes)
    requires major < 8
    ensures |Cbor.PutHead(major, n, t)| == HeadBytes(n) + |t|
  {
  }

  lemma CborMeasured(rules: TextRules)
    ensures Measured(W.CborWire(rules))
  {
    forall major: nat, n: nat, t: bytes | major < 8
      ensures |Cbor.PutHead(major, n, t)| == HeadBytes(n) + |t|
    {
      HeadMeasured(major, n, t);
    }
    forall t: bytes
      ensures |Cbor.PutOptionalBytes(None, t)| == 1 + |t| && |Cbor.PutOptionalText(None, t)| == 1 + |t|
    {
    }
  }

  lemma PictureCbor(w: W.Wire, t: bytes)
    requires Measured(w)
    ensures |E.PutAttachment(w, Picture(), t)| == 65_488 + |t|
  {
    var a := Picture();
    var key: Bytes32, header: Bytes66, streamHeader: Bytes24 := a.key, a.header, a.streamHeader;
    var s := E.PutDescription(w, a, t);
    assert |s| == 65_304 + |t|;
    assert |E.PutStream(w, a, s)| == 184 + |s|;
  }

  lemma AlbumCbor(w: W.Wire)
    requires Measured(w)
    ensures |E.PutEvent(w, E.Bodies(w), Album(), [])| < MAX_IO_BYTES
  {
    var e := Album();
    forall a: E.Attachment, t: bytes | IsPicture()(a)
      ensures |E.AttachmentWriter(w)(a, t)| == 65_488 + |t|
    {
      PictureCbor(w, t);
    }
    ListSize(E.AttachmentWriter(w), IsPicture(), 65_488, e.body.attachments, []);
    var s := E.PutAttachmentField(w, e.body.attachments, []);
    assert |s| == 261_954;
    MessageCbor(w, s);
    FixedCbor(w, E.PutReferences(w, [], w.putKey(9, E.PutBody(w, e.body, []))));
  }

  lemma MessageCbor(w: W.Wire, t: bytes)
    requires Measured(w)
    ensures |E.PutMessage(w, Album().body, t)| == 26 + |t|
  {
    var id: Bytes16 := Album().body.messageId;
  }

  lemma FixedCbor(w: W.Wire, t: bytes)
    requires Measured(w)
    ensures |E.PutFixed(w, Album(), t)| == 95 + |t|
  {
    var e := Album();
    var a: Bytes16, b: Bytes32, c: Bytes16, d: Bytes16 := e.eventId, e.conversationId, e.senderUser, e.senderDevice;
  }

  // The two operations

  function AlbumInput(rules: TextRules): bytes {
    ByteFrames().put(P.ENCODE_REQUEST_MAGIC, P.PutProjection(ByteFrames(), P.Bodies(ByteFrames(), rules), Album(), []))
  }

  lemma RequestReads(f: Frames, c: E.BodyCodec, e: E.ApplicationEvent)
    requires Complete(f) && E.BodiesComplete(c) && E.EventOk(c.rules, e)
    ensures P.DecodeRequest(f, c, f.put(P.ENCODE_REQUEST_MAGIC, P.PutProjection(f, c, e, []))) == Ok(e)
  {
    P.ProjectionComplete(f, c, e, []);
  }

  lemma AlbumRequest(rules: TextRules)
    requires Ascii(rules)
    ensures P.Application(rules).request(AlbumInput(rules)) == Ok(Album())
  {
    AlbumOk(rules);
    ByteFramesSound();
    ByteFramesComplete();
    P.BodiesAreLawful(ByteFrames(), rules);
    RequestReads(ByteFrames(), P.Bodies(ByteFrames(), rules), Album());
  }

  lemma AlbumSize(f: Frames, rules: TextRules)
    requires Sized(f)
    ensures |f.put(P.ENCODE_REQUEST_MAGIC, P.PutProjection(f, P.Bodies(f, rules), Album(), []))| == MAX_IO_BYTES
  {
    AlbumFrames(f, rules);
  }

  lemma ShortEncodes(w: W.Wire, c: E.BodyCodec, e: E.ApplicationEvent)
    requires |e.references| <= U64_MAX && e.body.MessageCreate? && E.BodyEncodable(e.body)
    requires |E.PutEvent(w, c, e, [])| < MAX_IO_BYTES
    ensures E.EncodeWith(w, c, e).Ok? && |E.EncodeWith(w, c, e).value| < MAX_IO_BYTES
  {
  }

  lemma AlbumFits(w: W.Wire)
    requires Measured(w)
    ensures E.EncodeWith(w, E.Bodies(w), Album()).Ok?
    ensures |E.EncodeWith(w, E.Bodies(w), Album()).value| < MAX_IO_BYTES
  {
    AlbumCbor(w);
    ShortEncodes(w, E.Bodies(w), Album());
  }

  lemma AlbumEncodes(rules: TextRules)
    ensures E.EncodeEvent(rules, Album()).Ok? && |E.EncodeEvent(rules, Album()).value| < MAX_IO_BYTES
  {
    CborMeasured(rules);
    AlbumFits(W.CborWire(rules));
  }

  /** The guard that stops the round trip is reached: operation 1 accepts a projection of exactly the
      input limit, and operation 2 refuses to write it back. */
  lemma FullProjectionIsLost(rules: TextRules)
    requires Ascii(rules)
    ensures |AlbumInput(rules)| == MAX_IO_BYTES
    ensures P.Operation1(P.Application(rules), AlbumInput(rules)).Ok?
    ensures |P.Operation1(P.Application(rules), AlbumInput(rules)).value| >= 8
    ensures P.Operation2(P.Application(rules), P.Operation1(P.Application(rules), AlbumInput(rules)).value[8..])
         == Err(InputTooLarge)
  {
    ByteFramesSized();
    AlbumSize(ByteFrames(), rules);
    AlbumRequest(rules);
    AlbumEncodes(rules);
    AlbumAccepted(P.Application(rules), AlbumInput(rules));
    P.ProjectionRoundTrip(rules, AlbumInput(rules));
  }

  lemma AlbumAccepted(c: P.Codecs, input: bytes)
    requires |input| <= MAX_IO_BYTES && c.request(input) == Ok(Album())
    requires c.encode(Album()).Ok? && |c.encode(Album()).value| <= MAX_IO_BYTES
    ensures P.Operation1(c, input).Ok?
  {
  }
}
