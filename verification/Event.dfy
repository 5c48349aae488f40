/** Version-1 application events and their deterministic-CBOR form (application.rs). */
module Event {
  import opened Bytes
  import opened Texts
  import opened Wire
  import opened Lists
  import UnknownBody

  const APPLICATION_VERSION: byte := 1
  const MAX_REFERENCES: nat := 64
  const MAX_ATTACHMENTS: nat := 32
  const MAX_THUMBNAIL_BYTES: nat := 65_536
  const CAPABILITY_ID_LENGTH: nat := 43

  const TEXT_LIMIT: TextLimit := TextLimit(65_536, 16_384, true)
  const QUOTE_LIMIT: TextLimit := TextLimit(2_048, 512, true)
  const EMOJI_LIMIT: TextLimit := TextLimit(64, 64, true)
  const NAME_LIMIT: TextLimit := TextLimit(128, 128, true)
  const CAPABILITY_LIMIT: TextLimit := TextLimit(43, 43, true)

  const KIND_MESSAGE_CREATE: u16 := 1
  const KIND_MESSAGE_EDIT: u16 := 2
  const KIND_MESSAGE_DELETE: u16 := 3
  const KIND_REACTION_SET: u16 := 4
  const KIND_PIN_SET: u16 := 5
  const KIND_RECEIPT_DELIVERED: u16 := 6
  const KIND_RECEIPT_READ: u16 := 7
  const KIND_TYPING_SET: u16 := 8

  datatype ApplicationEvent = ApplicationEvent(
    version: byte,
    eventId: Bytes16,
    conversationId: Bytes32,
    kind: u16,
    senderUser: Bytes16,
    senderDevice: Bytes16,
    senderCounter: u64,
    createdMs: u64,
    references: seq<Bytes16>,
    body: Body)

  datatype Body =
    | MessageCreate(
        messageId: Bytes16,
        contentType: byte,
        text: bytes,
        replyTo: Option<bytes>,
        quote: Option<bytes>,
        attachments: seq<Attachment>)
    | MessageEdit(target: Bytes16, revision: u32, replacement: bytes)
    | MessageDelete(target: Bytes16)
    | ReactionSet(target: Bytes16, emoji: Option<bytes>)
    | PinSet(target: Bytes16, pinned: bool)
    | Receipt(messageIds: seq<Bytes16>)
    | TypingSet(isTyping: bool, expiresMs: u64)
    | Unsupported

  datatype Attachment = Attachment(
    capabilityId: bytes,
    key: Bytes32,
    header: Bytes66,
    streamHeader: Bytes24,
    encryptedSize: u64,
    bucketSize: u64,
    plaintextSize: u64,
    displayName: bytes,
    mimeType: bytes,
    mediaKind: byte,
    width: u32,
    height: u32,
    caption: Option<bytes>,
    thumbnail: Option<bytes>)

  predicate SupportedKind(kind: u16) {
    1 <= kind <= 8
  }

  predicate NoDuplicates(ids: seq<Bytes16>) {
    forall i, j :: 0 <= i < j < |ids| ==> ids[i] != ids[j]
  }

  predicate CapabilityByte(b: byte) {
    48 <= b <= 57 || 65 <= b <= 90 || 97 <= b <= 122 || b == 95 || b == 45
  }

  /** `check_capability_id`: 43 characters of unpadded URL-safe Base64. */
  predicate CapabilityOk(id: bytes) {
    |id| == CAPABILITY_ID_LENGTH && forall i :: 0 <= i < |id| ==> CapabilityByte(id[i])
  }

  // The bounds both decoders enforce

  /** The text of a message may be empty only when it carries attachments. */
  function MessageLimit(contentType: u64): TextLimit {
    TEXT_LIMIT.(nonEmpty := contentType == 0)
  }

  predicate AttachmentOk(rules: TextRules, a: Attachment) {
    && WithinLimit(rules, a.capabilityId, CAPABILITY_LIMIT)
    && CapabilityOk(a.capabilityId)
    && WithinLimit(rules, a.displayName, NAME_LIMIT)
    && WithinLimit(rules, a.mimeType, NAME_LIMIT)
    && a.mediaKind <= 1
    && OptionWithinLimit(rules, a.caption, TEXT_LIMIT)
    && (a.thumbnail.Some? ==> 0 < |a.thumbnail.value| <= MAX_THUMBNAIL_BYTES)
  }

  function AttachmentRule(rules: TextRules): Attachment -> bool {
    (a: Attachment) => AttachmentOk(rules, a)
  }

  predicate CreateOk(rules: TextRules, body: Body)
    requires body.MessageCreate?
  {
    && body.contentType <= 2
    && WithinLimit(rules, body.text, MessageLimit(body.contentType))
    && OptionLength(body.replyTo, 16)
    && OptionWithinLimit(rules, body.quote, QUOTE_LIMIT)
    && (body.contentType == 0 <==> body.attachments == [])
    && |body.attachments| <= MAX_ATTACHMENTS
    && All(AttachmentRule(rules), body.attachments)
  }

  predicate BodyOk(rules: TextRules, kind: u16, body: Body) {
    match body
    case MessageCreate(_, _, _, _, _, _) => kind == KIND_MESSAGE_CREATE && CreateOk(rules, body)
    case MessageEdit(_, revision, replacement) =>
      kind == KIND_MESSAGE_EDIT && revision != 0 && WithinLimit(rules, replacement, TEXT_LIMIT)
    case MessageDelete(_) => kind == KIND_MESSAGE_DELETE
    case ReactionSet(_, emoji) =>
      && kind == KIND_REACTION_SET
      && OptionWithinLimit(rules, emoji, EMOJI_LIMIT)
      && (emoji.Some? ==> rules.emoji(emoji.value))
    case PinSet(_, _) => kind == KIND_PIN_SET
    case Receipt(ids) =>
      && (kind == KIND_RECEIPT_DELIVERED || kind == KIND_RECEIPT_READ)
      && 0 < |ids| <= MAX_REFERENCES
      && NoDuplicates(ids)
    case TypingSet(_, _) => kind == KIND_TYPING_SET
    case Unsupported => false
  }

  /** A supported event the decoders admit. */
  predicate EventOk(rules: TextRules, e: ApplicationEvent) {
    && e.version == APPLICATION_VERSION
    && e.senderCounter != 0
    && |e.references| <= MAX_REFERENCES
    && NoDuplicates(e.references)
    && BodyOk(rules, e.kind, e.body)
  }

  // The encoder

  /** `encode_cbor_attachment`. */
  function PutAttachment(w: Wire, a: Attachment, t: bytes): bytes {
    PutStream(w, a, PutDescription(w, a, t))
  }

  /** The map head and keys 0 to 6 of an attachment: how to fetch and decrypt it. */
  function PutStream(w: Wire, a: Attachment, t: bytes): bytes {
    w.putMap(14,
    w.putText(0, a.capabilityId,
    w.putBytes(1, a.key,
    w.putBytes(2, a.header,
    w.putBytes(3, a.streamHeader,
    w.putUint(4, a.encryptedSize,
    w.putUint(5, a.bucketSize,
    w.putUint(6, a.plaintextSize, t))))))))
  }

  /** Keys 7 to 13 of an attachment: what the recipient is shown. */
  function PutDescription(w: Wire, a: Attachment, t: bytes): bytes {
    w.putText(7, a.displayName,
    w.putText(8, a.mimeType,
    w.putUint(9, a.mediaKind,
    w.putUint(10, a.width,
    w.putUint(11, a.height,
    w.putOptionalText(12, a.caption,
    w.putBytes(13, if a.thumbnail.Some? then a.thumbnail.value else [], t)))))))
  }

  function AttachmentWriter(w: Wire): (Attachment, bytes) -> bytes {
    (a: Attachment, t: bytes) => PutAttachment(w, a, t)
  }

  function PutCreate(w: Wire, body: Body, t: bytes): bytes
    requires body.MessageCreate?
  {
    w.putMap(if body.attachments == [] then 5 else 6, PutMessage(w, body, PutAttachmentField(w, body.attachments, t)))
  }

  /** Keys 0 to 4 of a message. */
  function PutMessage(w: Wire, body: Body, t: bytes): bytes
    requires body.MessageCreate?
  {
    w.putBytes(0, body.messageId,
    w.putUint(1, body.contentType,
    w.putText(2, body.text,
    w.putOptionalBytes(3, body.replyTo,
    w.putOptionalText(4, body.quote, t)))))
  }

  /** Key 5, written only for a nonempty list. */
  function PutAttachmentField(w: Wire, attachments: seq<Attachment>, t: bytes): bytes {
    if attachments == [] then t
    else w.putArray(5, |attachments|, PutList(AttachmentWriter(w), attachments, t))
  }

  predicate BodyEncodable(body: Body) {
    match body
    case MessageCreate(_, contentType, _, _, _, attachments) =>
      (contentType == 0 <==> attachments == []) && |attachments| <= U64_MAX
    case Receipt(ids) => |ids| <= U64_MAX
    case Unsupported => false
    case _ => true
  }

  /** `encode_event_body`. It fails exactly on bodies that are not `BodyEncodable`. */
  function PutBody(w: Wire, body: Body, t: bytes): bytes {
    match body
    case MessageCreate(_, _, _, _, _, _) => PutCreate(w, body, t)
    case MessageEdit(target, revision, replacement) =>
      w.putMap(3, w.putBytes(0, target, w.putText(1, replacement, w.putUint(2, revision, t))))
    case MessageDelete(target) => w.putMap(1, w.putBytes(0, target, t))
    case ReactionSet(target, emoji) =>
      w.putMap(2, w.putBytes(0, target, w.putOptionalText(1, emoji, t)))
    case PinSet(target, pinned) =>
      w.putMap(2, w.putBytes(0, target, w.putFlag(1, pinned, t)))
    case Receipt(ids) => w.putMap(1, w.putArray(0, |ids|, PutIds(w, ids, t)))
    case TypingSet(isTyping, expiresMs) =>
      w.putMap(2, w.putFlag(0, isTyping, w.putUint(1, expiresMs, t)))
    case Unsupported => t
  }

  /** Keys 1 to 7 of an event. */
  function PutFixed(w: Wire, e: ApplicationEvent, t: bytes): bytes {
    w.putBytes(1, e.eventId,
    w.putBytes(2, e.conversationId,
    w.putUint(3, e.kind,
    w.putBytes(4, e.senderUser,
    w.putBytes(5, e.senderDevice,
    w.putUint(6, e.senderCounter,
    w.putUint(7, e.createdMs, t)))))))
  }

  /** The body codec, as the event codec sees it. */
  datatype BodyCodec = BodyCodec(
    rules: TextRules,
    put: (Body, bytes) -> bytes,
    read: (u16, bytes) -> Parsed<Body>)

  function Bodies(w: Wire): BodyCodec {
    BodyCodec(w.rules,
              (body: Body, t: bytes) => PutBody(w, body, t),
              (kind: u16, s: bytes) => ReadBodyOrUnknown(w, kind, s))
  }

  function PutEvent(w: Wire, c: BodyCodec, e: ApplicationEvent, t: bytes): bytes {
    w.putMap(10, w.putUint(0, e.version, PutFields(w, c, e, t)))
  }

  /** Keys 1 to 9. */
  function PutFields(w: Wire, c: BodyCodec, e: ApplicationEvent, t: bytes): bytes {
    PutFixed(w, e, PutReferences(w, e.references, w.putKey(9, c.put(e.body, t))))
  }

  /** Key 8. */
  function PutReferences(w: Wire, ids: seq<Bytes16>, t: bytes): bytes {
    w.putArray(8, |ids|, PutIds(w, ids, t))
  }

  /** `encode_event`. */
  function EncodeWith(w: Wire, c: BodyCodec, e: ApplicationEvent): Result<bytes> {
    if |e.references| > U64_MAX then Err(InputTooLarge)
    else if e.body.Unsupported? then Err(UnsupportedOperation)
    else if e.body.MessageCreate? && (e.body.contentType == 0) != (e.body.attachments == []) then Err(MalformedInput)
    else if !BodyEncodable(e.body) then Err(InputTooLarge)
    else if |PutEvent(w, c, e, [])| > MAX_IO_BYTES then Err(InputTooLarge)
    else Ok(PutEvent(w, c, e, []))
  }

  // The decoder

  /** `read_cbor_attachment`. */
  function ReadAttachment(w: Wire, s: bytes): Parsed<Attachment> {
    var (a, s) :- ReadStream(w, s);
    ReadDescription(w, s, a)
  }

  /** The map head and keys 0 to 6, into an attachment without a description. */
  function ReadStream(w: Wire, s: bytes): Parsed<Attachment> {
    var s :- ReadExactMap(w, s, 14);
    var (capabilityId, s) :- w.readText(s, 0, CAPABILITY_LIMIT);
    var _ :- Check(CapabilityOk(capabilityId), MalformedInput);
    var (key, s) :- ReadExact(w, s, 1, 32);
    var (header, s) :- ReadExact(w, s, 2, 66);
    var (streamHeader, s) :- ReadExact(w, s, 3, 24);
    var (encryptedSize, s) :- w.readUint(s, 4);
    var (bucketSize, s) :- w.readUint(s, 5);
    var (plaintextSize, s) :- w.readUint(s, 6);
    Ok((Attachment(
          capabilityId, key, header, streamHeader, encryptedSize, bucketSize, plaintextSize,
          [], [], 0, 0, 0, None, None), s))
  }

  /** Keys 7 to 13, filled into an attachment whose other fields are already read. */
  function ReadDescription(w: Wire, s: bytes, a: Attachment): Parsed<Attachment> {
    var (displayName, s) :- w.readText(s, 7, NAME_LIMIT);
    var (mimeType, s) :- w.readText(s, 8, NAME_LIMIT);
    var (mediaKind, s) :- w.readUint(s, 9);
    var _ :- Check(mediaKind <= 1, MalformedInput);
    var (width, s) :- w.readUint(s, 10);
    var _ :- Check(width <= U32_MAX, MalformedInput);
    var (height, s) :- w.readUint(s, 11);
    var _ :- Check(height <= U32_MAX, MalformedInput);
    var (caption, s) :- w.readOptionalText(s, 12, TEXT_LIMIT);
    var (thumbnail, s) :- w.readBytes(s, 13);
    var _ :- Check(|thumbnail| <= MAX_THUMBNAIL_BYTES, InputTooLarge);
    Ok((a.(displayName := displayName, mimeType := mimeType, mediaKind := mediaKind, width := width, height := height,
           caption := caption, thumbnail := if thumbnail == [] then None else Some(thumbnail)), s))
  }

  function AttachmentReader(w: Wire): bytes -> Parsed<Attachment> {
    (s: bytes) => ReadAttachment(w, s)
  }

  /** Key 5 of a message, present exactly in the six-field form and then never empty. */
  function ReadAttachmentField(w: Wire, s: bytes, present: bool): (r: Parsed<seq<Attachment>>)
    ensures r.Ok? ==> (present <==> r.value.0 != []) && |r.value.0| <= MAX_ATTACHMENTS
  {
    if !present then Ok(([], s))
    else
      var (count, s) :- w.readArray(s, 5);
      var _ :- Check(count != 0, MalformedInput);
      var _ :- Check(count <= MAX_ATTACHMENTS, InputTooLarge);
      ReadList(AttachmentReader(w), s, count)
  }

  /** Keys 0 to 4, into a message without attachments. */
  function ReadMessage(w: Wire, s: bytes): (r: Parsed<Body>)
    ensures r.Ok? ==> r.value.0.MessageCreate? && r.value.0.contentType <= 2 && r.value.0.attachments == []
  {
    var (messageId, s) :- ReadExact(w, s, 0, 16);
    var (contentType, s) :- w.readUint(s, 1);
    var _ :- Check(contentType <= 2, UnsupportedOperation);
    var (text, s) :- w.readText(s, 2, MessageLimit(contentType));
    var (replyTo, s) :- ReadOptionalExactly(w, s, 3, 16);
    var (quote, s) :- w.readOptionalText(s, 4, QUOTE_LIMIT);
    Ok((MessageCreate(messageId, contentType, text, replyTo, quote, []), s))
  }

  function ReadCreate(w: Wire, s: bytes): (r: Parsed<Body>)
    ensures r.Ok? ==> r.value.0.MessageCreate? && |r.value.0.attachments| <= MAX_ATTACHMENTS
    ensures r.Ok? ==> r.value.0.contentType <= 2 && (r.value.0.contentType == 0 <==> r.value.0.attachments == [])
  {
    var (fields, s) :- w.readMap(s);
    var _ :- Check(fields == 5 || fields == 6, MalformedInput);
    var (message, s) :- ReadMessage(w, s);
    var (attachments, s) :- ReadAttachmentField(w, s, fields == 6);
    var _ :- Check((message.contentType == 0) == (attachments == []), MalformedInput);
    Ok((message.(attachments := attachments), s))
  }

  /** `decode_cbor_body` on the supported kinds. */
  function ReadBody(w: Wire, kind: u16, s: bytes): Parsed<Body>
    requires SupportedKind(kind)
  {
    if kind == KIND_MESSAGE_CREATE then ReadCreate(w, s)
    else if kind == KIND_MESSAGE_EDIT then
      var s :- ReadExactMap(w, s, 3);
      var (target, s) :- ReadExact(w, s, 0, 16);
      var (replacement, s) :- w.readText(s, 1, TEXT_LIMIT);
      var (revision, s) :- w.readUint(s, 2);
      var _ :- Check(revision <= U32_MAX && revision != 0, MalformedInput);
      Ok((MessageEdit(target, revision, replacement), s))
    else if kind == KIND_MESSAGE_DELETE then
      var s :- ReadExactMap(w, s, 1);
      var (target, s) :- ReadExact(w, s, 0, 16);
      Ok((MessageDelete(target), s))
    else if kind == KIND_REACTION_SET then
      var s :- ReadExactMap(w, s, 2);
      var (target, s) :- ReadExact(w, s, 0, 16);
      var (emoji, s) :- w.readOptionalText(s, 1, EMOJI_LIMIT);
      var _ :- Check(emoji.None? || w.rules.emoji(emoji.value), MalformedInput);
      Ok((ReactionSet(target, emoji), s))
    else if kind == KIND_PIN_SET then
      var s :- ReadExactMap(w, s, 2);
      var (target, s) :- ReadExact(w, s, 0, 16);
      var (pinned, s) :- w.readFlag(s, 1);
      Ok((PinSet(target, pinned), s))
    else if kind == KIND_TYPING_SET then
      var s :- ReadExactMap(w, s, 2);
      var (isTyping, s) :- w.readFlag(s, 0);
      var (expiresMs, s) :- w.readUint(s, 1);
      Ok((TypingSet(isTyping, expiresMs), s))
    else
      var s :- ReadExactMap(w, s, 1);
      var (count, s) :- w.readArray(s, 0);
      var _ :- Check(0 < count <= MAX_REFERENCES, MalformedInput);
      var (ids, s) :- ReadIds(w, s, count);
      var _ :- Check(NoDuplicates(ids), MalformedInput);
      Ok((Receipt(ids), s))
  }

  function ReadBodyOrUnknown(w: Wire, kind: u16, s: bytes): Parsed<Body> {
    if SupportedKind(kind) then ReadBody(w, kind, s)
    else
      var t :- UnknownBody.ValidateBody(UnknownBody.CborItems(w.rules), s);
      Ok((Unsupported, t))
  }

  datatype Decoded = Decoded(event: ApplicationEvent) | OtherVersion(version: byte)

  /** Keys 1 to 7, into an event without references or body. */
  function ReadFixed(w: Wire, s: bytes): Parsed<ApplicationEvent> {
    var (eventId, s) :- ReadExact(w, s, 1, 16);
    var (conversationId, s) :- ReadExact(w, s, 2, 32);
    var (kind, s) :- w.readUint(s, 3);
    var _ :- Check(kind <= U16_MAX, MalformedInput);
    var (senderUser, s) :- ReadExact(w, s, 4, 16);
    var (senderDevice, s) :- ReadExact(w, s, 5, 16);
    var (senderCounter, s) :- w.readUint(s, 6);
    var _ :- Check(senderCounter != 0, MalformedInput);
    var (createdMs, s) :- w.readUint(s, 7);
    Ok((ApplicationEvent(
          APPLICATION_VERSION, eventId, conversationId, kind, senderUser, senderDevice, senderCounter, createdMs,
          [], Unsupported), s))
  }

  function ReadReferences(w: Wire, s: bytes): (r: Parsed<seq<Bytes16>>)
    ensures r.Ok? ==> |r.value.0| <= MAX_REFERENCES && NoDuplicates(r.value.0)
  {
    var (count, s) :- w.readArray(s, 8);
    var _ :- Check(count <= MAX_REFERENCES, InputTooLarge);
    var (references, s) :- ReadIds(w, s, count);
    var _ :- Check(NoDuplicates(references), MalformedInput);
    Ok((references, s))
  }

  /** Keys 1 to 9. */
  function ReadFields(w: Wire, c: BodyCodec, s: bytes): Parsed<ApplicationEvent> {
    var (fixed, s) :- ReadFixed(w, s);
    var (references, s) :- ReadReferences(w, s);
    var s :- w.readKey(s, 9);
    var (body, s) :- c.read(fixed.kind, s);
    Ok((fixed.(references := references, body := body), s))
  }

  /** `decode_event`. */
  function DecodeWith(w: Wire, c: BodyCodec, input: bytes): Result<Decoded> {
    if input == [] then Err(MalformedInput)
    else if |input| > MAX_IO_BYTES then Err(InputTooLarge)
    else
      var (fields, s) :- w.readMap(input);
      var (version, s) :- w.readUint(s, 0);
      var _ :- Check(version <= U8_MAX, MalformedInput);
      if version != APPLICATION_VERSION then Ok(OtherVersion(version))
      else
        var _ :- Check(fields == 10, MalformedInput);
        var (event, s) :- ReadFields(w, c, s);
        var _ :- Check(s == [], MalformedInput);
        Ok(Decoded(event))
  }

  /** The stream half of one attachment with the description half of another. */
  function Described(a: Attachment, d: Attachment): Attachment {
    a.(displayName := d.displayName, mimeType := d.mimeType, mediaKind := d.mediaKind, width := d.width,
       height := d.height, caption := d.caption, thumbnail := d.thumbnail)
  }

  const BLANK: Attachment := Attachment(
    [], seq(32, i => 0), seq(66, i => 0), seq(24, i => 0), 0, 0, 0, [], [], 0, 0, 0, None, None)

  // Soundness: what the decoder accepts is what the encoder writes

  lemma StreamSound(w: Wire, s: bytes)
    requires Sound(w) && ReadStream(w, s).Ok?
    ensures s == PutStream(w, ReadStream(w, s).value.0, ReadStream(w, s).value.1)
    ensures WithinLimit(w.rules, ReadStream(w, s).value.0.capabilityId, CAPABILITY_LIMIT)
    ensures CapabilityOk(ReadStream(w, s).value.0.capabilityId)
  {
  }

  lemma DescriptionSound(w: Wire, s: bytes, a: Attachment)
    requires Sound(w) && ReadDescription(w, s, a).Ok?
    requires WithinLimit(w.rules, a.capabilityId, CAPABILITY_LIMIT) && CapabilityOk(a.capabilityId)
    ensures s == PutDescription(w, ReadDescription(w, s, a).value.0, ReadDescription(w, s, a).value.1)
    ensures ReadDescription(w, s, a).value.0 == Described(a, ReadDescription(w, s, a).value.0)
    ensures AttachmentOk(w.rules, ReadDescription(w, s, a).value.0)
  {
  }

  lemma AttachmentSound(w: Wire, s: bytes)
    requires Sound(w) && ReadAttachment(w, s).Ok?
    ensures AttachmentOk(w.rules, ReadAttachment(w, s).value.0)
    ensures s == PutAttachment(w, ReadAttachment(w, s).value.0, ReadAttachment(w, s).value.1)
  {
    StreamSound(w, s);
    DescriptionSound(w, ReadStream(w, s).value.1, ReadStream(w, s).value.0);
  }

  lemma AttachmentElementsSound(w: Wire)
    requires Sound(w)
    ensures ElementSound(AttachmentWriter(w), AttachmentReader(w), AttachmentRule(w.rules))
  {
    forall s | ReadAttachment(w, s).Ok?
      ensures AttachmentOk(w.rules, ReadAttachment(w, s).value.0)
      ensures s == PutAttachment(w, ReadAttachment(w, s).value.0, ReadAttachment(w, s).value.1)
    {
      AttachmentSound(w, s);
    }
  }

  lemma FixedSound(w: Wire, s: bytes)
    requires Sound(w) && ReadFixed(w, s).Ok?
    ensures s == PutFixed(w, ReadFixed(w, s).value.0, ReadFixed(w, s).value.1)
  {
  }

  lemma MessageSound(w: Wire, s: bytes)
    requires Sound(w) && ReadMessage(w, s).Ok?
    ensures var m := ReadMessage(w, s).value.0;
      && s == PutMessage(w, m, ReadMessage(w, s).value.1)
      && WithinLimit(w.rules, m.text, MessageLimit(m.contentType))
      && OptionLength(m.replyTo, 16) && OptionWithinLimit(w.rules, m.quote, QUOTE_LIMIT)
  {
  }

  lemma AttachmentFieldSound(w: Wire, s: bytes, present: bool)
    requires Sound(w) && ReadAttachmentField(w, s, present).Ok?
    ensures All(AttachmentRule(w.rules), ReadAttachmentField(w, s, present).value.0)
    ensures s
      == PutAttachmentField(w, ReadAttachmentField(w, s, present).value.0, ReadAttachmentField(w, s, present).value.1)
  {
    if present {
      var (count, s1) := w.readArray(s, 5).value;
      AttachmentElementsSound(w);
      ListSound(AttachmentWriter(w), AttachmentReader(w), AttachmentRule(w.rules), s1, count);
    }
  }

  lemma CreateSound(w: Wire, s: bytes)
    requires Sound(w) && ReadCreate(w, s).Ok?
    ensures CreateOk(w.rules, ReadCreate(w, s).value.0)
    ensures s == PutCreate(w, ReadCreate(w, s).value.0, ReadCreate(w, s).value.1)
  {
    var (fields, s1) := w.readMap(s).value;
    MessageSound(w, s1);
    AttachmentFieldSound(w, ReadMessage(w, s1).value.1, fields == 6);
  }

  lemma BodySound(w: Wire, kind: u16, s: bytes)
    requires Sound(w) && SupportedKind(kind) && ReadBody(w, kind, s).Ok?
    ensures BodyOk(w.rules, kind, ReadBody(w, kind, s).value.0)
    ensures s == PutBody(w, ReadBody(w, kind, s).value.0, ReadBody(w, kind, s).value.1)
  {
    if kind == KIND_MESSAGE_CREATE {
      CreateSound(w, s);
    } else if kind == KIND_RECEIPT_DELIVERED || kind == KIND_RECEIPT_READ {
      var s1 := ReadExactMap(w, s, 1).value;
      var (count, s2) := w.readArray(s1, 0).value;
      IdsSound(w, s2, count);
    }
  }

  lemma ReferencesSound(w: Wire, s: bytes)
    requires Sound(w) && ReadReferences(w, s).Ok?
    ensures s == PutReferences(w, ReadReferences(w, s).value.0, ReadReferences(w, s).value.1)
  {
    var (count, s1) := w.readArray(s, 8).value;
    IdsSound(w, s1, count);
  }

  /** The laws the event codec needs of the body codec. */
  ghost predicate BodiesSound(c: BodyCodec) {
    forall kind: u16, s: bytes :: SupportedKind(kind) && c.read(kind, s).Ok? ==>
      BodyOk(c.rules, kind, c.read(kind, s).value.0) && s == c.put(c.read(kind, s).value.0, c.read(kind, s).value.1)
  }

  ghost predicate BodiesComplete(c: BodyCodec) {
    forall kind: u16, body: Body, t: bytes {:trigger c.read(kind, c.put(body, t))} ::
      BodyOk(c.rules, kind, body) ==> c.read(kind, c.put(body, t)) == Ok((body, t))
  }

  lemma FieldsSound(w: Wire, c: BodyCodec, s: bytes)
    requires Sound(w) && BodiesSound(c)
    requires ReadFields(w, c, s).Ok? && SupportedKind(ReadFields(w, c, s).value.0.kind)
    ensures EventOk(c.rules, ReadFields(w, c, s).value.0)
    ensures s == PutFields(w, c, ReadFields(w, c, s).value.0, ReadFields(w, c, s).value.1)
  {
    FixedSound(w, s);
    ReferencesSound(w, ReadFixed(w, s).value.1);
  }

  lemma EventSound(w: Wire, c: BodyCodec, input: bytes)
    requires Sound(w) && BodiesSound(c)
    requires DecodeWith(w, c, input).Ok? && DecodeWith(w, c, input).value.Decoded?
    requires SupportedKind(DecodeWith(w, c, input).value.event.kind)
    ensures EventOk(c.rules, DecodeWith(w, c, input).value.event)
    ensures EncodeWith(w, c, DecodeWith(w, c, input).value.event) == Ok(input)
  {
    FieldsSound(w, c, w.readUint(w.readMap(input).value.1, 0).value.1);
  }

  lemma BodiesAreSound(w: Wire)
    requires Sound(w)
    ensures BodiesSound(Bodies(w))
  {
    forall kind: u16, s: bytes | SupportedKind(kind) && ReadBody(w, kind, s).Ok?
      ensures BodyOk(w.rules, kind, ReadBody(w, kind, s).value.0)
      ensures s == PutBody(w, ReadBody(w, kind, s).value.0, ReadBody(w, kind, s).value.1)
    {
      BodySound(w, kind, s);
    }
  }

  // Completeness: the decoder accepts what the encoder writes

  lemma FixedComplete(w: Wire, e: ApplicationEvent, t: bytes)
    requires Complete(w) && e.senderCounter != 0 && e.version == APPLICATION_VERSION
    ensures ReadFixed(w, PutFixed(w, e, t)) == Ok((e.(references := [], body := Unsupported), t))
  {
  }

  lemma StreamComplete(w: Wire, a: Attachment, t: bytes)
    requires Complete(w) && WithinLimit(w.rules, a.capabilityId, CAPABILITY_LIMIT) && CapabilityOk(a.capabilityId)
    ensures ReadStream(w, PutStream(w, a, t)) == Ok((Described(a, BLANK), t))
  {
  }

  lemma DescriptionComplete(w: Wire, a: Attachment, t: bytes)
    requires Complete(w) && AttachmentOk(w.rules, a)
    ensures ReadDescription(w, PutDescription(w, a, t), Described(a, BLANK)) == Ok((a, t))
  {
  }

  lemma AttachmentElementsComplete(w: Wire)
    requires Complete(w)
    ensures ElementComplete(AttachmentWriter(w), AttachmentReader(w), AttachmentRule(w.rules))
  {
    forall a, t | AttachmentOk(w.rules, a)
      ensures ReadAttachment(w, PutAttachment(w, a, t)) == Ok((a, t))
    {
      StreamComplete(w, a, PutDescription(w, a, t));
      DescriptionComplete(w, a, t);
    }
  }

  lemma AttachmentFieldComplete(w: Wire, attachments: seq<Attachment>, t: bytes)
    requires Complete(w) && |attachments| <= MAX_ATTACHMENTS && All(AttachmentRule(w.rules), attachments)
    ensures ReadAttachmentField(w, PutAttachmentField(w, attachments, t), attachments != []) == Ok((attachments, t))
  {
    AttachmentElementsComplete(w);
    ListComplete(AttachmentWriter(w), AttachmentReader(w), AttachmentRule(w.rules), attachments, t);
  }

  lemma MessageComplete(w: Wire, body: Body, t: bytes)
    requires Complete(w) && body.MessageCreate? && CreateOk(w.rules, body)
    ensures ReadMessage(w, PutMessage(w, body, t)) == Ok((body.(attachments := []), t))
  {
  }

  lemma CreateComplete(w: Wire, body: Body, t: bytes)
    requires Complete(w) && body.MessageCreate? && CreateOk(w.rules, body)
    ensures ReadCreate(w, PutCreate(w, body, t)) == Ok((body, t))
  {
    AttachmentFieldComplete(w, body.attachments, t);
    MessageComplete(w, body, PutAttachmentField(w, body.attachments, t));
  }

  lemma BodyComplete(w: Wire, kind: u16, body: Body, t: bytes)
    requires Complete(w) && BodyOk(w.rules, kind, body)
    ensures SupportedKind(kind) && BodyEncodable(body)
    ensures ReadBody(w, kind, PutBody(w, body, t)) == Ok((body, t))
  {
    match body
    case MessageCreate(_, _, _, _, _, _) => CreateComplete(w, body, t);
    case Receipt(ids) => IdsComplete(w, ids, t);
    case _ =>
  }

  lemma BodiesAreComplete(w: Wire)
    requires Complete(w)
    ensures BodiesComplete(Bodies(w))
  {
    forall kind: u16, body: Body, t: bytes | BodyOk(w.rules, kind, body)
      ensures SupportedKind(kind) && ReadBody(w, kind, PutBody(w, body, t)) == Ok((body, t))
    {
      BodyComplete(w, kind, body, t);
    }
  }

  lemma FieldsComplete(w: Wire, c: BodyCodec, e: ApplicationEvent, t: bytes)
    requires Complete(w) && BodiesComplete(c) && EventOk(c.rules, e)
    ensures ReadFields(w, c, PutFields(w, c, e, t)) == Ok((e, t))
  {
    var s := w.putKey(9, c.put(e.body, t));
    assert c.read(e.kind, c.put(e.body, t)) == Ok((e.body, t));
    IdsComplete(w, e.references, s);
    FixedComplete(w, e, PutReferences(w, e.references, s));
  }

  lemma EventComplete(w: Wire, c: BodyCodec, e: ApplicationEvent)
    requires Complete(w) && BodiesComplete(c) && EventOk(c.rules, e)
    requires EncodeWith(w, c, e).Ok? && EncodeWith(w, c, e).value != []
    ensures DecodeWith(w, c, EncodeWith(w, c, e).value) == Ok(Decoded(e))
  {
    FieldsComplete(w, c, e, []);
  }

  // The bijection, on bytes

  function EncodeEvent(rules: TextRules, e: ApplicationEvent): Result<bytes> {
    EncodeWith(CborWire(rules), Bodies(CborWire(rules)), e)
  }

  function DecodeEvent(rules: TextRules, input: bytes): Result<Decoded> {
    DecodeWith(CborWire(rules), Bodies(CborWire(rules)), input)
  }

  /** Whatever the decoder accepts at version 1 and a supported kind is within the bounds, and the
      encoder writes exactly those bytes for it: one event has one byte string. */
  lemma DecodeThenEncode(rules: TextRules, input: bytes)
    requires DecodeEvent(rules, input).Ok? && DecodeEvent(rules, input).value.Decoded?
    requires SupportedKind(DecodeEvent(rules, input).value.event.kind)
    ensures EventOk(rules, DecodeEvent(rules, input).value.event)
    ensures EncodeEvent(rules, DecodeEvent(rules, input).value.event) == Ok(input)
  {
    CborWireSound(rules);
    BodiesAreSound(CborWire(rules));
    EventSound(CborWire(rules), Bodies(CborWire(rules)), input);
  }

  /** Every event within the bounds whose encoding fits decodes back to itself. */
  lemma EncodeThenDecode(rules: TextRules, e: ApplicationEvent)
    requires EventOk(rules, e) && EncodeEvent(rules, e).Ok?
    ensures DecodeEvent(rules, EncodeEvent(rules, e).value) == Ok(Decoded(e))
  {
    CborWireComplete(rules);
    BodiesAreComplete(CborWire(rules));
    EventComplete(CborWire(rules), Bodies(CborWire(rules)), e);
  }

  /** An in-bounds event is refused by the encoder only for its size. */
  lemma EncodeRefusesOnlySize(rules: TextRules, e: ApplicationEvent)
    requires EventOk(rules, e)
    ensures EncodeEvent(rules, e) == Err(InputTooLarge) || EncodeEvent(rules, e).Ok?
  {
  }
}
