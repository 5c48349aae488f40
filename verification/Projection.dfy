/** The projection frame exchanged with Dart (application.rs), and operations 1 and 2 of the
    application module: projection to CBOR and CBOR to projection. */
module Projection {
  import opened Bytes
  import opened Texts
  import opened Frames
  import opened Event
  import opened Lists

  const ENCODE_REQUEST_MAGIC: bytes := [67, 80, 65, 69, 86, 48, 48, 49]
  const ENCODE_RESPONSE_MAGIC: bytes := [67, 80, 65, 79, 69, 48, 48, 49]
  const DECODE_RESPONSE_MAGIC: bytes := [67, 80, 65, 79, 68, 48, 48, 49]

  // The writer

  function PutOptionalId(f: Frames, v: Option<bytes>, t: bytes): bytes {
    match v
    case None => f.putInt(0, 1, t)
    case Some(id) => f.putInt(1, 1, f.put(id, t))
  }

  function PutOptionalFrame(f: Frames, v: Option<bytes>, t: bytes): bytes {
    match v
    case None => f.putInt(0, 1, t)
    case Some(b) => f.putInt(1, 1, f.putFrame(b, t))
  }

  function IdWriter(f: Frames): (Bytes16, bytes) -> bytes {
    (id: Bytes16, t: bytes) => f.put(id, t)
  }

  function PutStream(f: Frames, a: Attachment, t: bytes): bytes {
    f.putFrame(a.capabilityId,
    f.put(a.key,
    f.put(a.header,
    f.put(a.streamHeader,
    f.putInt(a.encryptedSize, 8,
    f.putInt(a.bucketSize, 8,
    f.putInt(a.plaintextSize, 8, t)))))))
  }

  function PutDescription(f: Frames, a: Attachment, t: bytes): bytes {
    var thumbnail := if a.thumbnail.Some? then a.thumbnail.value else [];
    f.putFrame(a.displayName,
    f.putFrame(a.mimeType,
    f.putInt(a.mediaKind, 1,
    f.putInt(a.width, 4,
    f.putInt(a.height, 4,
    PutOptionalFrame(f, a.caption,
    f.putInt(|thumbnail|, 4, f.put(thumbnail, t))))))))
  }

  /** `push_projection_attachment`. */
  function PutAttachment(f: Frames, a: Attachment, t: bytes): bytes {
    PutStream(f, a, PutDescription(f, a, t))
  }

  function AttachmentWriter(f: Frames): (Attachment, bytes) -> bytes {
    (a: Attachment, t: bytes) => PutAttachment(f, a, t)
  }

  function PutMessage(f: Frames, body: Body, t: bytes): bytes
    requires body.MessageCreate?
  {
    f.put(body.messageId,
    f.putInt(body.contentType, 1,
    f.putFrame(body.text,
    PutOptionalId(f, body.replyTo,
    PutOptionalFrame(f, body.quote, t)))))
  }

  function PutAttachmentField(f: Frames, attachments: seq<Attachment>, t: bytes): bytes {
    if attachments == [] then t
    else f.putInt(|attachments|, 1, PutList(AttachmentWriter(f), attachments, t))
  }

  function PutBody(f: Frames, body: Body, t: bytes): bytes {
    match body
    case MessageCreate(_, _, _, _, _, _) => PutMessage(f, body, PutAttachmentField(f, body.attachments, t))
    case MessageEdit(target, revision, replacement) => f.put(target, f.putInt(revision, 4, f.putFrame(replacement, t)))
    case MessageDelete(target) => f.put(target, t)
    case ReactionSet(target, emoji) => f.put(target, PutOptionalFrame(f, emoji, t))
    case PinSet(target, pinned) => f.put(target, PutFlag(f, pinned, t))
    case Receipt(ids) => f.putInt(|ids|, 1, PutList(IdWriter(f), ids, t))
    case TypingSet(isTyping, expiresMs) => PutFlag(f, isTyping, f.putInt(expiresMs, 8, t))
    case Unsupported => t
  }

  function PutFixed(f: Frames, e: ApplicationEvent, t: bytes): bytes {
    f.putInt(e.version, 1,
    f.put(e.eventId,
    f.put(e.conversationId,
    f.putInt(e.kind, 2,
    f.put(e.senderUser,
    f.put(e.senderDevice,
    f.putInt(e.senderCounter, 8,
    f.putInt(e.createdMs, 8, t))))))))
  }

  function PutReferences(f: Frames, ids: seq<Bytes16>, t: bytes): bytes {
    f.putInt(|ids|, 1, PutList(IdWriter(f), ids, t))
  }

  function Bodies(f: Frames, rules: TextRules): BodyCodec {
    BodyCodec(rules, (body: Body, t: bytes) => PutBody(f, body, t),
              (kind: u16, s: bytes) => ReadBody(f, rules, kind, s))
  }

  /** The fields `encode_projection` writes after the response magic and status byte. */
  function PutProjection(f: Frames, c: BodyCodec, e: ApplicationEvent, t: bytes): bytes {
    PutFixed(f, e, PutReferences(f, e.references, c.put(e.body, t)))
  }

  // The reader

  /** `framed_text`. */
  function ReadText(f: Frames, rules: TextRules, s: bytes, l: TextLimit): Parsed<bytes> {
    var (b, t) :- f.readFrame(s);
    var _ :- Check(|b| <= l.maxBytes, InputTooLarge);
    var _ :- Check(!l.nonEmpty || b != [], MalformedInput);
    var _ :- Check(rules.utf8(b), MalformedInput);
    var _ :- Check(rules.scalars(b) <= l.maxScalars, InputTooLarge);
    Ok((b, t))
  }

  /** `optional_text`. */
  function ReadOptionalText(f: Frames, rules: TextRules, s: bytes, l: TextLimit): Parsed<Option<bytes>> {
    var (flag, s) :- ReadU8(f, s);
    if flag == 0 then Ok((None, s))
    else
      var _ :- Check(flag == 1, MalformedInput);
      var (b, s) :- ReadText(f, rules, s, l.(nonEmpty := true));
      Ok((Some(b), s))
  }

  /** `optional_id`. */
  function ReadOptionalId(f: Frames, s: bytes): Parsed<Option<bytes>> {
    var (flag, s) :- ReadU8(f, s);
    if flag == 0 then Ok((None, s))
    else
      var _ :- Check(flag == 1, MalformedInput);
      var (id, s) :- ReadArray(f, s, 16);
      Ok((Some(id), s))
  }

  function ReadOneId(f: Frames, s: bytes): Parsed<Bytes16> {
    var (id, t) :- ReadArray(f, s, 16);
    Ok((id, t))
  }

  function IdReader(f: Frames): bytes -> Parsed<Bytes16> {
    (s: bytes) => ReadOneId(f, s)
  }

  function ReadStream(f: Frames, rules: TextRules, s: bytes): Parsed<Attachment> {
    var (capabilityId, s) :- ReadText(f, rules, s, CAPABILITY_LIMIT);
    var _ :- Check(CapabilityOk(capabilityId), MalformedInput);
    var (key, s) :- ReadArray(f, s, 32);
    var (header, s) :- ReadArray(f, s, 66);
    var (streamHeader, s) :- ReadArray(f, s, 24);
    var (encryptedSize, s) :- ReadU64(f, s);
    var (bucketSize, s) :- ReadU64(f, s);
    var (plaintextSize, s) :- ReadU64(f, s);
    Ok((Attachment(
          capabilityId, key, header, streamHeader, encryptedSize, bucketSize, plaintextSize,
          [], [], 0, 0, 0, None, None), s))
  }

  function ReadDescription(f: Frames, rules: TextRules, s: bytes, a: Attachment): Parsed<Attachment> {
    var (displayName, s) :- ReadText(f, rules, s, NAME_LIMIT);
    var (mimeType, s) :- ReadText(f, rules, s, NAME_LIMIT);
    var (mediaKind, s) :- ReadU8(f, s);
    var _ :- Check(mediaKind <= 1, MalformedInput);
    var (width, s) :- ReadU32(f, s);
    var (height, s) :- ReadU32(f, s);
    var (caption, s) :- ReadOptionalText(f, rules, s, TEXT_LIMIT);
    var (length, s) :- ReadU32(f, s);
    var _ :- Check(length <= MAX_THUMBNAIL_BYTES, InputTooLarge);
    var (thumbnail, s) :- ReadArray(f, s, length);
    Ok((a.(displayName := displayName, mimeType := mimeType, mediaKind := mediaKind, width := width, height := height,
           caption := caption, thumbnail := if length == 0 then None else Some(thumbnail)), s))
  }

  /** `decode_projection_attachment`. A zero thumbnail length takes no bytes, which is reading an
      empty array. */
  function ReadAttachment(f: Frames, rules: TextRules, s: bytes): Parsed<Attachment> {
    var (a, s) :- ReadStream(f, rules, s);
    ReadDescription(f, rules, s, a)
  }

  function AttachmentReader(f: Frames, rules: TextRules): bytes -> Parsed<Attachment> {
    (s: bytes) => ReadAttachment(f, rules, s)
  }

  function ReadMessage(f: Frames, rules: TextRules, s: bytes): (r: Parsed<Body>)
    ensures r.Ok? ==> r.value.0.MessageCreate? && r.value.0.contentType <= 2
  {
    var (messageId, s) :- ReadArray(f, s, 16);
    var (contentType, s) :- ReadU8(f, s);
    var _ :- Check(contentType <= 2, UnsupportedOperation);
    var (text, s) :- ReadText(f, rules, s, MessageLimit(contentType));
    var (replyTo, s) :- ReadOptionalId(f, s);
    var (quote, s) :- ReadOptionalText(f, rules, s, QUOTE_LIMIT);
    Ok((MessageCreate(messageId, contentType, text, replyTo, quote, []), s))
  }

  function ReadAttachmentField(f: Frames, rules: TextRules, s: bytes, present: bool): (r: Parsed<seq<Attachment>>)
    ensures r.Ok? ==> (present <==> r.value.0 != []) && |r.value.0| <= MAX_ATTACHMENTS
  {
    if !present then Ok(([], s))
    else
      var (count, s) :- ReadU8(f, s);
      var _ :- Check(count <= MAX_ATTACHMENTS, InputTooLarge);
      var (attachments, s) :- ReadList(AttachmentReader(f, rules), s, count);
      var _ :- Check(attachments != [], MalformedInput);
      Ok((attachments, s))
  }

  function ReadCreate(f: Frames, rules: TextRules, s: bytes): (r: Parsed<Body>)
    ensures r.Ok? ==> r.value.0.MessageCreate?
  {
    var (message, s) :- ReadMessage(f, rules, s);
    var (attachments, s) :- ReadAttachmentField(f, rules, s, message.contentType != 0);
    Ok((message.(attachments := attachments), s))
  }

  /** `decode_projection_body`. */
  function ReadBody(f: Frames, rules: TextRules, kind: u16, s: bytes): Parsed<Body> {
    if kind == KIND_MESSAGE_CREATE then ReadCreate(f, rules, s)
    else if kind == KIND_MESSAGE_EDIT then
      var (target, s) :- ReadArray(f, s, 16);
      var (revision, s) :- ReadU32(f, s);
      var _ :- Check(revision != 0, MalformedInput);
      var (replacement, s) :- ReadText(f, rules, s, TEXT_LIMIT);
      Ok((MessageEdit(target, revision, replacement), s))
    else if kind == KIND_MESSAGE_DELETE then
      var (target, s) :- ReadArray(f, s, 16);
      Ok((MessageDelete(target), s))
    else if kind == KIND_REACTION_SET then
      var (target, s) :- ReadArray(f, s, 16);
      var (emoji, s) :- ReadOptionalText(f, rules, s, EMOJI_LIMIT);
      var _ :- Check(emoji.None? || rules.emoji(emoji.value), MalformedInput);
      Ok((ReactionSet(target, emoji), s))
    else if kind == KIND_PIN_SET then
      var (target, s) :- ReadArray(f, s, 16);
      var (pinned, s) :- ReadFlag(f, s);
      Ok((PinSet(target, pinned), s))
    else if kind == KIND_RECEIPT_DELIVERED || kind == KIND_RECEIPT_READ then
      var (count, s) :- ReadU8(f, s);
      var _ :- Check(0 < count <= MAX_REFERENCES, MalformedInput);
      var (ids, s) :- ReadList(IdReader(f), s, count);
      var _ :- Check(NoDuplicates(ids), MalformedInput);
      Ok((Receipt(ids), s))
    else if kind == KIND_TYPING_SET then
      var (isTyping, s) :- ReadFlag(f, s);
      var (expiresMs, s) :- ReadU64(f, s);
      Ok((TypingSet(isTyping, expiresMs), s))
    else Err(UnsupportedOperation)
  }

  function ReadFixed(f: Frames, s: bytes): Parsed<ApplicationEvent> {
    var (version, s) :- ReadU8(f, s);
    var _ :- Check(version == APPLICATION_VERSION, UnsupportedVersion);
    var (eventId, s) :- ReadArray(f, s, 16);
    var (conversationId, s) :- ReadArray(f, s, 32);
    var (kind, s) :- ReadU16(f, s);
    var (senderUser, s) :- ReadArray(f, s, 16);
    var (senderDevice, s) :- ReadArray(f, s, 16);
    var (senderCounter, s) :- ReadU64(f, s);
    var (createdMs, s) :- ReadU64(f, s);
    var _ :- Check(senderCounter != 0, MalformedInput);
    Ok((ApplicationEvent(
          version, eventId, conversationId, kind, senderUser, senderDevice, senderCounter, createdMs,
          [], Unsupported), s))
  }

  function ReadReferences(f: Frames, s: bytes): (r: Parsed<seq<Bytes16>>)
    ensures r.Ok? ==> |r.value.0| <= MAX_REFERENCES && NoDuplicates(r.value.0)
  {
    var (count, s) :- ReadU8(f, s);
    var _ :- Check(count <= MAX_REFERENCES, InputTooLarge);
    var (ids, s) :- ReadList(IdReader(f), s, count);
    var _ :- Check(NoDuplicates(ids), MalformedInput);
    Ok((ids, s))
  }

  function ReadProjection(f: Frames, c: BodyCodec, s: bytes): Parsed<ApplicationEvent> {
    var (fixed, s) :- ReadFixed(f, s);
    var (references, s) :- ReadReferences(f, s);
    var (body, s) :- c.read(fixed.kind, s);
    Ok((fixed.(references := references, body := body), s))
  }

  // The projection codec is a bijection on the events both decoders admit

  lemma StreamSound(f: Frames, rules: TextRules, s: bytes)
    requires Sound(f) && ReadStream(f, rules, s).Ok?
    ensures s == PutStream(f, ReadStream(f, rules, s).value.0, ReadStream(f, rules, s).value.1)
    ensures WithinLimit(rules, ReadStream(f, rules, s).value.0.capabilityId, CAPABILITY_LIMIT)
    ensures CapabilityOk(ReadStream(f, rules, s).value.0.capabilityId)
  {
  }

  lemma DescriptionSound(f: Frames, rules: TextRules, s: bytes, a: Attachment)
    requires Sound(f) && ReadDescription(f, rules, s, a).Ok?
    requires WithinLimit(rules, a.capabilityId, CAPABILITY_LIMIT) && CapabilityOk(a.capabilityId)
    ensures s == PutDescription(f, ReadDescription(f, rules, s, a).value.0, ReadDescription(f, rules, s, a).value.1)
    ensures ReadDescription(f, rules, s, a).value.0 == Described(a, ReadDescription(f, rules, s, a).value.0)
    ensures AttachmentOk(rules, ReadDescription(f, rules, s, a).value.0)
  {
  }

  lemma AttachmentElementsSound(f: Frames, rules: TextRules)
    requires Sound(f)
    ensures ElementSound(AttachmentWriter(f), AttachmentReader(f, rules), AttachmentRule(rules))
  {
    forall s | ReadAttachment(f, rules, s).Ok?
      ensures AttachmentOk(rules, ReadAttachment(f, rules, s).value.0)
      ensures s == PutAttachment(f, ReadAttachment(f, rules, s).value.0, ReadAttachment(f, rules, s).value.1)
    {
      StreamSound(f, rules, s);
      DescriptionSound(f, rules, ReadStream(f, rules, s).value.1, ReadStream(f, rules, s).value.0);
    }
  }

  lemma MessageSound(f: Frames, rules: TextRules, s: bytes)
    requires Sound(f) && ReadMessage(f, rules, s).Ok?
    ensures var m := ReadMessage(f, rules, s).value.0;
      && s == PutMessage(f, m, ReadMessage(f, rules, s).value.1) && m.attachments == []
      && WithinLimit(rules, m.text, MessageLimit(m.contentType))
      && OptionLength(m.replyTo, 16) && OptionWithinLimit(rules, m.quote, QUOTE_LIMIT)
  {
  }

  lemma AttachmentFieldSound(f: Frames, rules: TextRules, s: bytes, present: bool)
    requires Sound(f) && ReadAttachmentField(f, rules, s, present).Ok?
    ensures All(AttachmentRule(rules), ReadAttachmentField(f, rules, s, present).value.0)
    ensures var (xs, t) := ReadAttachmentField(f, rules, s, present).value; s == PutAttachmentField(f, xs, t)
  {
    if present {
      var (count, s1) := ReadU8(f, s).value;
      AttachmentElementsSound(f, rules);
      ListSound(AttachmentWriter(f), AttachmentReader(f, rules), AttachmentRule(rules), s1, count);
    }
  }

  lemma CreateSound(f: Frames, rules: TextRules, s: bytes)
    requires Sound(f) && ReadCreate(f, rules, s).Ok?
    ensures CreateOk(rules, ReadCreate(f, rules, s).value.0)
    ensures s == PutBody(f, ReadCreate(f, rules, s).value.0, ReadCreate(f, rules, s).value.1)
  {
    MessageSound(f, rules, s);
    var (message, s1) := ReadMessage(f, rules, s).value;
    AttachmentFieldSound(f, rules, s1, message.contentType != 0);
  }

  lemma IdElementsSound(f: Frames)
    requires Sound(f)
    ensures ElementSound(IdWriter(f), IdReader(f), (id: Bytes16) => true)
  {
  }

  lemma BodySound(f: Frames, rules: TextRules, kind: u16, s: bytes)
    requires Sound(f) && ReadBody(f, rules, kind, s).Ok?
    ensures SupportedKind(kind) && BodyOk(rules, kind, ReadBody(f, rules, kind, s).value.0)
    ensures s == PutBody(f, ReadBody(f, rules, kind, s).value.0, ReadBody(f, rules, kind, s).value.1)
  {
    if kind == KIND_MESSAGE_CREATE {
      CreateSound(f, rules, s);
    } else if kind == KIND_RECEIPT_DELIVERED || kind == KIND_RECEIPT_READ {
      var (count, s1) := ReadU8(f, s).value;
      IdElementsSound(f);
      ListSound(IdWriter(f), IdReader(f), (id: Bytes16) => true, s1, count);
    }
  }

  lemma FixedSound(f: Frames, s: bytes)
    requires Sound(f) && ReadFixed(f, s).Ok?
    ensures s == PutFixed(f, ReadFixed(f, s).value.0, ReadFixed(f, s).value.1)
  {
  }

  lemma ReferencesSound(f: Frames, s: bytes)
    requires Sound(f) && ReadReferences(f, s).Ok?
    ensures s == PutReferences(f, ReadReferences(f, s).value.0, ReadReferences(f, s).value.1)
  {
    var (count, s1) := ReadU8(f, s).value;
    IdElementsSound(f);
    ListSound(IdWriter(f), IdReader(f), (id: Bytes16) => true, s1, count);
  }

  /** The reader accepts no kind but the supported ones. */
  ghost predicate OnlySupported(c: BodyCodec) {
    forall kind: u16, s: bytes :: c.read(kind, s).Ok? ==> SupportedKind(kind)
  }

  lemma ProjectionSound(f: Frames, c: BodyCodec, s: bytes)
    requires Sound(f) && BodiesSound(c) && OnlySupported(c) && ReadProjection(f, c, s).Ok?
    ensures EventOk(c.rules, ReadProjection(f, c, s).value.0)
    ensures s == PutProjection(f, c, ReadProjection(f, c, s).value.0, ReadProjection(f, c, s).value.1)
  {
    FixedSound(f, s);
    ReferencesSound(f, ReadFixed(f, s).value.1);
  }

  lemma StreamComplete(f: Frames, rules: TextRules, a: Attachment, t: bytes)
    requires Complete(f) && WithinLimit(rules, a.capabilityId, CAPABILITY_LIMIT) && CapabilityOk(a.capabilityId)
    ensures ReadStream(f, rules, PutStream(f, a, t)) == Ok((Described(a, BLANK), t))
  {
  }

  lemma DescriptionComplete(f: Frames, rules: TextRules, a: Attachment, t: bytes)
    requires Complete(f) && AttachmentOk(rules, a)
    ensures ReadDescription(f, rules, PutDescription(f, a, t), Described(a, BLANK)) == Ok((a, t))
  {
  }

  lemma AttachmentElementsComplete(f: Frames, rules: TextRules)
    requires Complete(f)
    ensures ElementComplete(AttachmentWriter(f), AttachmentReader(f, rules), AttachmentRule(rules))
  {
    forall a, t | AttachmentOk(rules, a)
      ensures ReadAttachment(f, rules, PutAttachment(f, a, t)) == Ok((a, t))
    {
      StreamComplete(f, rules, a, PutDescription(f, a, t));
      DescriptionComplete(f, rules, a, t);
    }
  }

  lemma AttachmentFieldComplete(f: Frames, rules: TextRules, attachments: seq<Attachment>, t: bytes)
    requires Complete(f) && |attachments| <= MAX_ATTACHMENTS && All(AttachmentRule(rules), attachments)
    ensures ReadAttachmentField(f, rules, PutAttachmentField(f, attachments, t), attachments != [])
      == Ok((attachments, t))
  {
    AttachmentElementsComplete(f, rules);
    ListComplete(AttachmentWriter(f), AttachmentReader(f, rules), AttachmentRule(rules), attachments, t);
  }

  lemma MessageComplete(f: Frames, rules: TextRules, body: Body, t: bytes)
    requires Complete(f) && body.MessageCreate? && CreateOk(rules, body)
    ensures ReadMessage(f, rules, PutMessage(f, body, t)) == Ok((body.(attachments := []), t))
  {
  }

  lemma IdsComplete(f: Frames, ids: seq<Bytes16>, t: bytes)
    requires Complete(f)
    ensures ReadList(IdReader(f), PutList(IdWriter(f), ids, t), |ids|) == Ok((ids, t))
  {
    ListComplete(IdWriter(f), IdReader(f), (id: Bytes16) => true, ids, t);
  }

  lemma BodyComplete(f: Frames, rules: TextRules, kind: u16, body: Body, t: bytes)
    requires Complete(f) && BodyOk(rules, kind, body)
    ensures ReadBody(f, rules, kind, PutBody(f, body, t)) == Ok((body, t))
  {
    match body
    case MessageCreate(_, _, _, _, _, _) =>
      AttachmentFieldComplete(f, rules, body.attachments, t);
      MessageComplete(f, rules, body, PutAttachmentField(f, body.attachments, t));
    case Receipt(ids) => IdsComplete(f, ids, t);
    case _ =>
  }

  lemma FixedComplete(f: Frames, e: ApplicationEvent, t: bytes)
    requires Complete(f) && e.senderCounter != 0 && e.version == APPLICATION_VERSION
    ensures ReadFixed(f, PutFixed(f, e, t)) == Ok((e.(references := [], body := Unsupported), t))
  {
  }

  lemma ProjectionComplete(f: Frames, c: BodyCodec, e: ApplicationEvent, t: bytes)
    requires Complete(f) && BodiesComplete(c) && EventOk(c.rules, e)
    ensures ReadProjection(f, c, PutProjection(f, c, e, t)) == Ok((e, t))
  {
    assert c.read(e.kind, c.put(e.body, t)) == Ok((e.body, t));
    IdsComplete(f, e.references, c.put(e.body, t));
    FixedComplete(f, e, PutReferences(f, e.references, c.put(e.body, t)));
  }

  // Operations 1 and 2

  /** `decode_projection_request`. */
  function DecodeRequest(f: Frames, c: BodyCodec, input: bytes): Result<ApplicationEvent> {
    var (magic, s) :- f.take(input, 8);
    var _ :- Check(magic == ENCODE_REQUEST_MAGIC, MalformedInput);
    var (e, s) :- ReadProjection(f, c, s);
    var _ :- Check(s == [], MalformedInput);
    Ok(e)
  }

  /** What `encode_projection` can write: its counts are bytes and its frames 32-bit. */
  predicate Projectable(e: ApplicationEvent) {
    && |e.references| <= U8_MAX
    && match e.body {
         case MessageCreate(_, _, text, _, quote, attachments) =>
           && |text| <= U32_MAX
           && (quote.Some? ==> |quote.value| <= U32_MAX)
           && |attachments| <= U8_MAX
           && forall i :: 0 <= i < |attachments| ==> ProjectableAttachment(attachments[i])
         case MessageEdit(_, _, replacement) => |replacement| <= U32_MAX
         case ReactionSet(_, emoji) => emoji.Some? ==> |emoji.value| <= U32_MAX
         case Receipt(ids) => |ids| <= U8_MAX
         case _ => true
       }
  }

  predicate ProjectableAttachment(a: Attachment) {
    && |a.capabilityId| <= U32_MAX && |a.displayName| <= U32_MAX && |a.mimeType| <= U32_MAX
    && (a.caption.Some? ==> |a.caption.value| <= U32_MAX)
    && (a.thumbnail.Some? ==> |a.thumbnail.value| <= U32_MAX)
  }

  /** The four codecs the operations are made of. */
  datatype Codecs = Codecs(
    request: bytes -> Result<ApplicationEvent>,
    fields: ApplicationEvent -> bytes,
    encode: ApplicationEvent -> Result<bytes>,
    decode: bytes -> Result<Decoded>)

  function Application(rules: TextRules): Codecs {
    Codecs((input: bytes) => DecodeRequest(ByteFrames(), Bodies(ByteFrames(), rules), input),
           (e: ApplicationEvent) => PutProjection(ByteFrames(), Bodies(ByteFrames(), rules), e, []),
           (e: ApplicationEvent) => EncodeEvent(rules, e),
           (input: bytes) => DecodeEvent(rules, input))
  }

  /** `encode_operation`, behind the size check of `operation`. */
  function Operation1(c: Codecs, input: bytes): Result<bytes> {
    var _ :- Check(|input| <= MAX_IO_BYTES, InputTooLarge);
    var e :- c.request(input);
    var encoded :- c.encode(e);
    var _ :- Check(8 + |encoded| <= MAX_INPUT_BYTES, InputTooLarge);
    Ok(ENCODE_RESPONSE_MAGIC + encoded)
  }

  /** `decode_operation`, behind the size check of `operation`. */
  function Operation2(c: Codecs, input: bytes): Result<bytes> {
    var _ :- Check(|input| <= MAX_IO_BYTES, InputTooLarge);
    var decoded :- c.decode(input);
    match decoded
    case OtherVersion(version) => Ok(DECODE_RESPONSE_MAGIC + [2, version])
    case Decoded(e) =>
      var _ :- Check(Projectable(e), InputTooLarge);
      var output := DECODE_RESPONSE_MAGIC + [if e.body.Unsupported? then 1 else 0] + c.fields(e);
      var _ :- Check(|output| <= MAX_IO_BYTES, InputTooLarge);
      Ok(output)
  }

  lemma BodiesAreLawful(f: Frames, rules: TextRules)
    requires Sound(f) && Complete(f)
    ensures BodiesSound(Bodies(f, rules)) && OnlySupported(Bodies(f, rules)) && BodiesComplete(Bodies(f, rules))
  {
    forall kind: u16, s: bytes | ReadBody(f, rules, kind, s).Ok?
      ensures SupportedKind(kind) && BodyOk(rules, kind, ReadBody(f, rules, kind, s).value.0)
      ensures s == PutBody(f, ReadBody(f, rules, kind, s).value.0, ReadBody(f, rules, kind, s).value.1)
    {
      BodySound(f, rules, kind, s);
    }
    forall kind: u16, body: Body, t: bytes | BodyOk(rules, kind, body)
      ensures ReadBody(f, rules, kind, PutBody(f, body, t)) == Ok((body, t))
    {
      BodyComplete(f, rules, kind, body, t);
    }
  }

  lemma RequestSound(f: Frames, c: BodyCodec, input: bytes)
    requires Sound(f) && BodiesSound(c) && OnlySupported(c) && DecodeRequest(f, c, input).Ok?
    ensures EventOk(c.rules, DecodeRequest(f, c, input).value)
    ensures input == f.put(ENCODE_REQUEST_MAGIC, PutProjection(f, c, DecodeRequest(f, c, input).value, []))
  {
    ProjectionSound(f, c, f.take(input, 8).value.1);
  }

  lemma InBoundsIsProjectable(rules: TextRules, e: ApplicationEvent)
    requires EventOk(rules, e)
    ensures Projectable(e)
  {
    if e.body.MessageCreate? {
      forall i | 0 <= i < |e.body.attachments|
        ensures ProjectableAttachment(e.body.attachments[i])
      {
        assert AttachmentRule(rules)(e.body.attachments[i]);
      }
    }
  }

  /** What operation 1 knows of the event it read. */
  ghost predicate RequestLaw(c: Codecs, rules: TextRules, input: bytes) {
    c.request(input).Ok? ==>
      && EventOk(rules, c.request(input).value)
      && input == ENCODE_REQUEST_MAGIC + c.fields(c.request(input).value)
  }

  ghost predicate EventLaw(c: Codecs, rules: TextRules, e: ApplicationEvent) {
    EventOk(rules, e) && c.encode(e).Ok? ==>
      c.decode(c.encode(e).value) == Ok(Decoded(e)) && |c.encode(e).value| <= MAX_IO_BYTES
  }

  lemma ApplicationRequestLaw(rules: TextRules, input: bytes)
    ensures RequestLaw(Application(rules), rules, input)
  {
    var f := ByteFrames();
    ByteFramesSound();
    ByteFramesComplete();
    BodiesAreLawful(f, rules);
    if DecodeRequest(f, Bodies(f, rules), input).Ok? {
      RequestSound(f, Bodies(f, rules), input);
    }
  }

  lemma ApplicationEventLaw(rules: TextRules, e: ApplicationEvent)
    ensures EventLaw(Application(rules), rules, e)
  {
    if EventOk(rules, e) && EncodeEvent(rules, e).Ok? {
      EncodeThenDecode(rules, e);
      EncodedFits(rules, e);
    }
  }

  lemma EncodedFits(rules: TextRules, e: ApplicationEvent)
    requires EncodeEvent(rules, e).Ok?
    ensures |EncodeEvent(rules, e).value| <= MAX_IO_BYTES
  {
  }

  lemma RoundTrip(c: Codecs, rules: TextRules, input: bytes)
    requires Operation1(c, input).Ok?
    requires RequestLaw(c, rules, input) && EventLaw(c, rules, c.request(input).value)
    ensures |Operation1(c, input).value| >= 8 && Operation1(c, input).value[..8] == ENCODE_RESPONSE_MAGIC
    ensures Operation2(c, Operation1(c, input).value[8..])
         == if |input| < MAX_IO_BYTES then Ok(DECODE_RESPONSE_MAGIC + [0] + input[8..]) else Err(InputTooLarge)
  {
    var e := c.request(input).value;
    assert input[8..] == c.fields(e);
    assert Operation1(c, input).value[8..] == c.encode(e).value;
    InBoundsIsProjectable(rules, e);
  }

  /** For every projection operation 1 accepts, operation 2 on the CBOR it returns gives back the
      same projection fields byte for byte. It fails in exactly one case: the projection filled
      the whole input limit, so the response, one byte longer, passes the response-size guard. */
  lemma ProjectionRoundTrip(rules: TextRules, input: bytes)
    requires Operation1(Application(rules), input).Ok?
    ensures |Operation1(Application(rules), input).value| >= 8
    ensures Operation1(Application(rules), input).value[..8] == ENCODE_RESPONSE_MAGIC
    ensures Operation2(Application(rules), Operation1(Application(rules), input).value[8..])
         == if |input| < MAX_IO_BYTES then Ok(DECODE_RESPONSE_MAGIC + [0] + input[8..]) else Err(InputTooLarge)
  {
    ApplicationRequestLaw(rules, input);
    ApplicationEventLaw(rules, Application(rules).request(input).value);
    RoundTrip(Application(rules), rules, input);
  }
}
