/** Exactly which bytes are an application event, unknown kinds and other versions included, and what
    operations 1 and 2 answer to them (application.rs). */
module EventExactly {
  import opened Bytes
  import opened Texts
  import opened Wire
  import opened Event
  import UnknownBody
  import Projection
  import Frames
  import Lists

  /** What both decoders ask of an event before its body. */
  predicate EnvelopeOk(e: ApplicationEvent) {
    e.version == APPLICATION_VERSION && e.senderCounter != 0 && |e.references| <= MAX_REFERENCES
      && NoDuplicates(e.references)
  }

  /** The ten fields of an event around the bytes of its body. */
  function PutAround(w: Wire, e: ApplicationEvent, body: bytes): bytes {
    w.putMap(10, w.putUint(0, e.version, PutFixed(w, e, PutReferences(w, e.references, w.putKey(9, body)))))
  }

  // One event, given its body's bytes

  lemma ReadsAround(w: Wire, c: BodyCodec, e: ApplicationEvent, body: bytes)
    requires Complete(w) && EnvelopeOk(e) && c.read(e.kind, body) == Ok((e.body, []))
    requires 0 < |PutAround(w, e, body)| <= MAX_IO_BYTES
    ensures DecodeWith(w, c, PutAround(w, e, body)) == Ok(Decoded(e))
  {
    var s := w.putKey(9, body);
    FixedComplete(w, e, PutReferences(w, e.references, s));
    IdsComplete(w, e.references, s);
  }

  lemma FieldsAround(w: Wire, c: BodyCodec, s: bytes)
    returns (body: bytes)
    requires Sound(w) && ReadFields(w, c, s).Ok?
    ensures var (e, t) := ReadFields(w, c, s).value;
      && EnvelopeOk(e) && c.read(e.kind, body) == Ok((e.body, t))
      && s == PutFixed(w, e, PutReferences(w, e.references, w.putKey(9, body)))
  {
    FixedSound(w, s);
    var (fixed, s1) := ReadFixed(w, s).value;
    ReferencesSound(w, s1);
    var (references, s2) := ReadReferences(w, s1).value;
    body := w.readKey(s2, 9).value;
    var (e, t) := ReadFields(w, c, s).value;
    assert c.read(e.kind, body) == Ok((e.body, t)) by {
      assert c.read(fixed.kind, body).value == (c.read(fixed.kind, body).value.0, c.read(fixed.kind, body).value.1);
    }
    assert PutFixed(w, fixed, s1) == PutFixed(w, e, s1);
  }

  lemma DecodedAround(w: Wire, c: BodyCodec, input: bytes, e: ApplicationEvent) returns (body: bytes)
    requires Sound(w) && DecodeWith(w, c, input) == Ok(Decoded(e))
    ensures EnvelopeOk(e) && 0 < |input| <= MAX_IO_BYTES && input == PutAround(w, e, body)
    ensures c.read(e.kind, body) == Ok((e.body, []))
  {
    var s := w.readUint(w.readMap(input).value.1, 0).value.1;
    body := FieldsAround(w, c, s);
  }

  // Other versions

  lemma OtherVersionWith(w: Wire, c: BodyCodec, input: bytes, version: byte)
    requires Sound(w) && Complete(w)
    ensures DecodeWith(w, c, input) == Ok(OtherVersion(version)) <==>
      && version != APPLICATION_VERSION && 0 < |input| <= MAX_IO_BYTES
      && exists n: u64, t: bytes :: input == w.putMap(n, w.putUint(0, version, t))
  {
    if DecodeWith(w, c, input) == Ok(OtherVersion(version)) {
      var (n, s) := w.readMap(input).value;
      assert input == w.putMap(n, w.putUint(0, version, w.readUint(s, 0).value.1));
    }
    forall n: u64, t: bytes | input == w.putMap(n, w.putUint(0, version, t))
      ensures w.readMap(input) == Ok((n, w.putUint(0, version, t)))
    {
    }
  }

  /** An event of another version is recognised from its first field alone: a map of any length whose
      key 0 holds that version, whatever follows. */
  lemma OtherVersionExactly(rules: TextRules, input: bytes, version: byte)
    ensures DecodeEvent(rules, input) == Ok(OtherVersion(version)) <==>
      && version != APPLICATION_VERSION && 0 < |input| <= MAX_IO_BYTES
      && exists n: u64, t: bytes :: input == CborWire(rules).putMap(n, CborWire(rules).putUint(0, version, t))
  {
    CborWireSound(rules);
    CborWireComplete(rules);
    OtherVersionWith(CborWire(rules), Bodies(CborWire(rules)), input, version);
  }

  // Supported kinds

  /** At a supported kind, bytes decode to an event exactly when it is within the bounds and they are
      its encoding. */
  lemma SupportedExactly(rules: TextRules, input: bytes, e: ApplicationEvent)
    requires SupportedKind(e.kind)
    ensures DecodeEvent(rules, input) == Ok(Decoded(e)) <==> EventOk(rules, e) && EncodeEvent(rules, e) == Ok(input)
  {
    if DecodeEvent(rules, input) == Ok(Decoded(e)) {
      DecodeThenEncode(rules, input);
    }
    if EventOk(rules, e) && EncodeEvent(rules, e) == Ok(input) {
      EncodeThenDecode(rules, e);
    }
  }

  // Unknown kinds

  /** The bytes of a body of an unknown kind: one deterministically encoded map, within the limits, and
      nothing after it. */
  ghost predicate OpaqueBody(rules: TextRules, body: bytes) {
    exists i :: UnknownBody.IsBody(rules, body, i, [])
  }

  lemma UnknownRead(rules: TextRules, kind: u16, body: bytes)
    requires !SupportedKind(kind)
    ensures ReadBodyOrUnknown(CborWire(rules), kind, body) == Ok((Unsupported, [])) <==> OpaqueBody(rules, body)
    ensures ReadBodyOrUnknown(CborWire(rules), kind, body).Ok? ==>
      ReadBodyOrUnknown(CborWire(rules), kind, body).value.0 == Unsupported
  {
    UnknownBody.BodyAcceptedExactly(rules, body, []);
  }

  /** At an unknown kind, bytes decode to an event exactly when its envelope is in order, its body is
      left uninterpreted, and the bytes are that envelope around one admissible body, within the size
      limit and with nothing left over. */
  lemma UnknownExactly(rules: TextRules, input: bytes, e: ApplicationEvent)
    requires !SupportedKind(e.kind)
    ensures DecodeEvent(rules, input) == Ok(Decoded(e)) <==>
      && EnvelopeOk(e) && e.body == Unsupported && 0 < |input| <= MAX_IO_BYTES
      && exists body :: OpaqueBody(rules, body) && input == PutAround(CborWire(rules), e, body)
  {
    var w := CborWire(rules);
    CborWireSound(rules);
    CborWireComplete(rules);
    if DecodeEvent(rules, input) == Ok(Decoded(e)) {
      var body := DecodedAround(w, Bodies(w), input, e);
      UnknownRead(rules, e.kind, body);
    }
    forall body | OpaqueBody(rules, body) && input == PutAround(w, e, body)
      ensures EnvelopeOk(e) && e.body == Unsupported && 0 < |input| <= MAX_IO_BYTES ==>
        DecodeEvent(rules, input) == Ok(Decoded(e))
    {
      UnknownRead(rules, e.kind, body);
      if EnvelopeOk(e) && e.body == Unsupported && 0 < |input| <= MAX_IO_BYTES {
        ReadsAround(w, Bodies(w), e, body);
      }
    }
  }

  // Operations 1 and 2

  function FieldsOf(rules: TextRules, e: ApplicationEvent): bytes {
    Projection.Application(rules).fields(e)
  }

  lemma RequestReadsBack(f: Frames.Frames, c: BodyCodec, e: ApplicationEvent)
    requires Frames.Complete(f) && BodiesComplete(c) && EventOk(c.rules, e)
    ensures Projection.DecodeRequest(f, c,
              f.put(Projection.ENCODE_REQUEST_MAGIC, Projection.PutProjection(f, c, e, []))) == Ok(e)
  {
    Projection.ProjectionComplete(f, c, e, []);
  }

  lemma RequestExactly(rules: TextRules, input: bytes, e: ApplicationEvent)
    ensures Projection.Application(rules).request(input) == Ok(e) <==>
      EventOk(rules, e) && input == Projection.ENCODE_REQUEST_MAGIC + FieldsOf(rules, e)
  {
    Projection.ApplicationRequestLaw(rules, input);
    if EventOk(rules, e) && input == Projection.ENCODE_REQUEST_MAGIC + FieldsOf(rules, e) {
      var f := Frames.ByteFrames();
      Frames.ByteFramesSound();
      Frames.ByteFramesComplete();
      Projection.BodiesAreLawful(f, rules);
      RequestReadsBack(f, Projection.Bodies(f, rules), e);
    }
  }

  lemma Operation1With(c: Projection.Codecs, input: bytes, output: bytes)
    requires c.request(input).Ok? && c.encode(c.request(input).value).Ok? ==>
      |c.encode(c.request(input).value).value| <= MAX_IO_BYTES
    ensures Projection.Operation1(c, input) == Ok(output) <==>
      && |input| <= MAX_IO_BYTES && c.request(input).Ok? && c.encode(c.request(input).value).Ok?
      && output == Projection.ENCODE_RESPONSE_MAGIC + c.encode(c.request(input).value).value
  {
  }

  /** Operation 1 succeeds exactly on the projection, behind its magic and within the size limit, of an
      event in bounds that encodes, and answers with that encoding. */
  lemma Operation1Exactly(rules: TextRules, input: bytes, output: bytes)
    ensures Projection.Operation1(Projection.Application(rules), input) == Ok(output) <==>
      exists e :: && EventOk(rules, e) && |input| <= MAX_IO_BYTES
                  && input == Projection.ENCODE_REQUEST_MAGIC + FieldsOf(rules, e)
                  && EncodeEvent(rules, e).Ok?
                  && output == Projection.ENCODE_RESPONSE_MAGIC + EncodeEvent(rules, e).value
  {
    var c := Projection.Application(rules);
    var read := c.request(input);
    if read.Ok? {
      RequestExactly(rules, input, read.value);
      if c.encode(read.value).Ok? {
        Projection.EncodedFits(rules, read.value);
      }
    }
    forall e | EventOk(rules, e) && input == Projection.ENCODE_REQUEST_MAGIC + FieldsOf(rules, e)
      ensures read == Ok(e)
    {
      RequestExactly(rules, input, e);
    }
    Operation1With(c, input, output);
  }

  /** The envelope of an event whose body is not interpreted always fits a response. */
  lemma UnknownFits(rules: TextRules, e: ApplicationEvent)
    requires e.body == Unsupported && |e.references| <= MAX_REFERENCES
    ensures |FieldsOf(rules, e)| == 100 + 16 * |e.references|
  {
    Frames.ByteFramesSized();
    UnknownSize(Frames.ByteFrames(), rules, e);
  }

  lemma UnknownSize(f: Frames.Frames, rules: TextRules, e: ApplicationEvent)
    requires Frames.Sized(f) && e.body == Unsupported
    ensures |Projection.PutProjection(f, Projection.Bodies(f, rules), e, [])| == 100 + 16 * |e.references|
  {
    Lists.ListSize(Projection.IdWriter(f), (id: Bytes16) => true, 16, e.references, []);
    var a: Bytes16, b: Bytes32, c: Bytes16, d: Bytes16 := e.eventId, e.conversationId, e.senderUser, e.senderDevice;
  }

  /** What operation 2 answers, given what the decoder said. */
  predicate Answers(c: Projection.Codecs, decoded: Result<Event.Decoded>, r: Result<bytes>) {
    match decoded
    case Err(e) => r == Err(e)
    case Ok(OtherVersion(version)) => r == Ok(Projection.DECODE_RESPONSE_MAGIC + [2, version])
    case Ok(Decoded(e)) =>
      if !SupportedKind(e.kind) then r == Ok(Projection.DECODE_RESPONSE_MAGIC + [1] + c.fields(e))
      else if |c.fields(e)| <= MAX_IO_BYTES - 9 then r == Ok(Projection.DECODE_RESPONSE_MAGIC + [0] + c.fields(e))
      else r == Err(InputTooLarge)
  }

  /** What operation 2 needs of an event the decoder accepts. */
  predicate Presentable(c: Projection.Codecs, e: ApplicationEvent) {
    && Projection.Projectable(e) && (SupportedKind(e.kind) <==> !e.body.Unsupported?)
    && (!SupportedKind(e.kind) ==> |c.fields(e)| <= MAX_IO_BYTES - 9)
  }

  lemma Operation2With(c: Projection.Codecs, input: bytes)
    requires |input| <= MAX_IO_BYTES
    requires c.decode(input).Ok? && c.decode(input).value.Decoded? ==> Presentable(c, c.decode(input).value.event)
    ensures Answers(c, c.decode(input), Projection.Operation2(c, input))
  {
  }

  /** Whatever is decoded is in bounds. */
  lemma DecodedBounds(rules: TextRules, input: bytes, e: ApplicationEvent)
    requires DecodeEvent(rules, input) == Ok(Decoded(e))
    ensures if SupportedKind(e.kind) then EventOk(rules, e) else EnvelopeOk(e) && e.body == Unsupported
  {
    if SupportedKind(e.kind) {
      DecodeThenEncode(rules, input);
    } else {
      UnknownExactly(rules, input, e);
    }
  }

  lemma InBoundsIsPresentable(rules: TextRules, c: Projection.Codecs, e: ApplicationEvent)
    requires if SupportedKind(e.kind) then EventOk(rules, e) else EnvelopeOk(e) && e.body == Unsupported
    requires !SupportedKind(e.kind) ==> |c.fields(e)| <= MAX_IO_BYTES - 9
    ensures Presentable(c, e)
  {
    if SupportedKind(e.kind) {
      Projection.InBoundsIsProjectable(rules, e);
    }
  }

  lemma DecodedIsPresentable(rules: TextRules, input: bytes, e: ApplicationEvent)
    requires DecodeEvent(rules, input) == Ok(Decoded(e))
    ensures Presentable(Projection.Application(rules), e)
  {
    DecodedBounds(rules, input, e);
    if !SupportedKind(e.kind) {
      UnknownFits(rules, e);
    }
    InBoundsIsPresentable(rules, Projection.Application(rules), e);
  }

  /** Operation 2 answers every event it can decode: an event of another version with status 2 and that
      version, one of an unknown kind with status 1 and its envelope, always, and one of a supported
      kind with status 0 and its projection unless that is too long. What it cannot decode it refuses
      with the decoder's own error, and input past the limit at once. */
  lemma Operation2Exactly(rules: TextRules, input: bytes)
    ensures if |input| > MAX_IO_BYTES
      then Projection.Operation2(Projection.Application(rules), input) == Err(InputTooLarge)
      else Answers(Projection.Application(rules), DecodeEvent(rules, input),
                   Projection.Operation2(Projection.Application(rules), input))
  {
    if |input| <= MAX_IO_BYTES {
      var decoded := DecodeEvent(rules, input);
      if decoded.Ok? && decoded.value.Decoded? {
        DecodedIsPresentable(rules, input, decoded.value.event);
      }
      Operation2With(Projection.Application(rules), input);
    }
  }
}
