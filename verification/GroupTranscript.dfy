/** Sealing and opening group control events, and what the hash chain over them commits to
    (group_control.rs). */
module GroupTranscript {
  import opened Bytes
  import opened Texts
  import opened Lists
  import opened Wire
  import opened GroupControl
  import Frames
  import Framing

  const SIGNATURE_DOMAIN: bytes :=
    [99, 104, 97, 116, 58, 118, 49, 58, 103, 114, 111, 117, 112, 45, 99, 111, 110, 116, 114, 111, 108]
  const STATE_HASH_DOMAIN: bytes :=
    [99, 104, 97, 116, 58, 118, 49, 58, 103, 114, 111, 117, 112, 45, 99, 111, 110, 116, 114, 111, 108,
     45, 115, 116, 97, 116, 101]

  /** The primitives, left abstract. */
  datatype Crypto = Crypto(
    sha256: bytes -> Bytes32,
    publicKey: bytes -> bytes,
    sign: (bytes, bytes) -> bytes,
    verify: (bytes, bytes, bytes) -> bool)

  // The projection frame exchanged with Dart

  function MemberFrameWriter(f: Frames.Frames): (Member, bytes) -> bytes {
    (m: Member, t: bytes) => f.put(m.userId, f.putInt(m.role, 1, t))
  }

  function IdFrameWriter(f: Frames.Frames): (Bytes16, bytes) -> bytes {
    (id: Bytes16, t: bytes) => f.put(id, t)
  }

  function PutFrameBody(f: Frames.Frames, body: ControlBody, t: bytes): bytes {
    match body
    case Create(name, description, invitationPolicy, historyPolicy, members) =>
      f.putFrame(name,
      f.putFrame(description,
      f.putInt(invitationPolicy, 1,
      f.putInt(historyPolicy, 1,
      f.putInt(|members|, 2, PutList(MemberFrameWriter(f), members, t))))))
    case AddMember(userIds) => f.putInt(|userIds|, 2, PutList(IdFrameWriter(f), userIds, t))
    case RemoveMember(userId) => f.put(userId, t)
    case ChangeRole(userId, role) => f.put(userId, f.putInt(role, 1, t))
    case Rename(name, description) => f.putFrame(name, f.putFrame(description, t))
  }

  function PutPrevious(f: Frames.Frames, previous: Option<bytes>, t: bytes): bytes {
    match previous
    case None => f.putInt(0, 1, t)
    case Some(hash) => f.putInt(1, 1, f.put(hash, t))
  }

  /** `encode_projection`, on the events `validate` admits. */
  function PutFrameControl(f: Frames.Frames, c: Control, t: bytes): bytes {
    f.putInt(GROUP_CONTROL_VERSION, 1,
    f.put(c.eventId,
    f.put(c.groupId,
    f.putInt(c.revision, 4,
    PutPrevious(f, c.previous,
    f.put(c.signerUser,
    f.put(c.signerDevice,
    f.putInt(c.createdMs, 8,
    f.putInt(c.body.Kind(), 1, PutFrameBody(f, c.body, t))))))))))
  }

  /** `projection_text`. */
  function ReadFrameText(f: Frames.Frames, rules: TextRules, s: bytes, l: TextLimit): Parsed<bytes> {
    var (b, t) :- f.readFrame(s);
    var _ :- Check(|b| <= l.maxBytes, InputTooLarge);
    var _ :- Check(rules.utf8(b), MalformedInput);
    var _ :- Check(rules.scalars(b) <= l.maxScalars, InputTooLarge);
    Ok((b, t))
  }

  function ReadFrameMember(f: Frames.Frames, s: bytes): Parsed<Member> {
    var (userId, s) :- Frames.ReadArray(f, s, 16);
    var (role, s) :- Frames.ReadU8(f, s);
    Ok((Member(userId, role), s))
  }

  function MemberFrameReader(f: Frames.Frames): bytes -> Parsed<Member> {
    (s: bytes) => ReadFrameMember(f, s)
  }

  function ReadFrameId(f: Frames.Frames, s: bytes): Parsed<Bytes16> {
    var (id, s) :- Frames.ReadArray(f, s, 16);
    Ok((id, s))
  }

  function IdFrameReader(f: Frames.Frames): bytes -> Parsed<Bytes16> {
    (s: bytes) => ReadFrameId(f, s)
  }

  function ReadFrameBody(f: Frames.Frames, rules: TextRules, kind: byte, s: bytes): Parsed<ControlBody> {
    if kind == 1 then
      var (name, s) :- ReadFrameText(f, rules, s, NAME_LIMIT);
      var (description, s) :- ReadFrameText(f, rules, s, DESCRIPTION_LIMIT);
      var (invitationPolicy, s) :- Frames.ReadU8(f, s);
      var (historyPolicy, s) :- Frames.ReadU8(f, s);
      var (count, s) :- Frames.ReadU16(f, s);
      var _ :- Check(count <= MAX_MEMBERS, InputTooLarge);
      var (members, s) :- ReadList(MemberFrameReader(f), s, count);
      Ok((Create(name, description, invitationPolicy, historyPolicy, members), s))
    else if kind == 2 then
      var (count, s) :- Frames.ReadU16(f, s);
      var _ :- Check(count < MAX_MEMBERS, InputTooLarge);
      var (userIds, s) :- ReadList(IdFrameReader(f), s, count);
      Ok((AddMember(userIds), s))
    else if kind == 3 then
      var (userId, s) :- Frames.ReadArray(f, s, 16);
      Ok((RemoveMember(userId), s))
    else if kind == 4 then
      var (userId, s) :- Frames.ReadArray(f, s, 16);
      var (role, s) :- Frames.ReadU8(f, s);
      Ok((ChangeRole(userId, role), s))
    else if kind == 5 then
      var (name, s) :- ReadFrameText(f, rules, s, NAME_LIMIT);
      var (description, s) :- ReadFrameText(f, rules, s, DESCRIPTION_LIMIT);
      Ok((Rename(name, description), s))
    else Err(UnsupportedOperation)
  }

  function ReadPrevious(f: Frames.Frames, s: bytes): Parsed<Option<bytes>> {
    var (flag, s) :- Frames.ReadU8(f, s);
    if flag == 0 then Ok((None, s))
    else
      var _ :- Check(flag == 1, MalformedInput);
      var (hash, s) :- Frames.ReadArray(f, s, 32);
      Ok((Some(hash), s))
  }

  function ReadFrameControl(f: Frames.Frames, rules: TextRules, s: bytes): Parsed<Control> {
    var (version, s) :- Frames.ReadU8(f, s);
    var _ :- Check(version == GROUP_CONTROL_VERSION, UnsupportedVersion);
    var (eventId, s) :- Frames.ReadArray(f, s, 16);
    var (groupId, s) :- Frames.ReadArray(f, s, 32);
    var (revision, s) :- Frames.ReadU32(f, s);
    var (previous, s) :- ReadPrevious(f, s);
    var (signerUser, s) :- Frames.ReadArray(f, s, 16);
    var (signerDevice, s) :- Frames.ReadArray(f, s, 16);
    var (createdMs, s) :- Frames.ReadU64(f, s);
    var (kind, s) :- Frames.ReadU8(f, s);
    var (body, s) :- ReadFrameBody(f, rules, kind, s);
    Ok((Control(eventId, groupId, revision, previous, signerUser, signerDevice, createdMs, body), s))
  }

  /** `decode_projection`. */
  function DecodeProjection(f: Frames.Frames, rules: TextRules, input: bytes): Result<Control> {
    var (control, s) :- ReadFrameControl(f, rules, input);
    var _ :- Check(s == [], MalformedInput);
    var _ :- Validate(rules, control);
    Ok(control)
  }

  lemma FrameBodySound(f: Frames.Frames, rules: TextRules, kind: byte, s: bytes)
    requires Frames.Sound(f) && ReadFrameBody(f, rules, kind, s).Ok?
    ensures var (body, t) := ReadFrameBody(f, rules, kind, s).value;
      && body.Kind() == kind && s == PutFrameBody(f, body, t)
      && (body.Create? || body.Rename? ==> rules.utf8(body.name) && rules.utf8(body.description))
  {
    if kind == 1 {
      var s1 := ReadFrameText(f, rules, s, NAME_LIMIT).value.1;
      var s2 := ReadFrameText(f, rules, s1, DESCRIPTION_LIMIT).value.1;
      var s3 := Frames.ReadU8(f, s2).value.1;
      var s4 := Frames.ReadU8(f, s3).value.1;
      var (count, s5) := Frames.ReadU16(f, s4).value;
      ListSound(MemberFrameWriter(f), MemberFrameReader(f), (m: Member) => true, s5, count);
    } else if kind == 2 {
      var (count, s1) := Frames.ReadU16(f, s).value;
      ListSound(IdFrameWriter(f), IdFrameReader(f), (id: Bytes16) => true, s1, count);
    }
  }

  lemma PreviousSound(f: Frames.Frames, s: bytes)
    requires Frames.Sound(f) && ReadPrevious(f, s).Ok?
    ensures s == PutPrevious(f, ReadPrevious(f, s).value.0, ReadPrevious(f, s).value.1)
    ensures OptionLength(ReadPrevious(f, s).value.0, 32)
  {
  }

  lemma ProjectionSound(f: Frames.Frames, rules: TextRules, input: bytes)
    requires Frames.Sound(f) && DecodeProjection(f, rules, input).Ok?
    ensures Valid(rules, DecodeProjection(f, rules, input).value)
    ensures input == PutFrameControl(f, DecodeProjection(f, rules, input).value, [])
  {
    forall s | ReadPrevious(f, s).Ok?
      ensures s == PutPrevious(f, ReadPrevious(f, s).value.0, ReadPrevious(f, s).value.1)
      ensures OptionLength(ReadPrevious(f, s).value.0, 32)
    {
      PreviousSound(f, s);
    }
    forall kind: byte, s | ReadFrameBody(f, rules, kind, s).Ok?
      ensures var (body, t) := ReadFrameBody(f, rules, kind, s).value;
        && body.Kind() == kind && s == PutFrameBody(f, body, t)
        && (body.Create? || body.Rename? ==> rules.utf8(body.name) && rules.utf8(body.description))
    {
      FrameBodySound(f, rules, kind, s);
    }
  }

  // Sealing and opening

  /** `with_domain`. */
  function WithDomain(domain: bytes, canonical: bytes): bytes {
    domain + Framing.PutFrame(canonical, [])
  }

  lemma WithDomainInjective(domain: bytes, a: bytes, b: bytes)
    requires WithDomain(domain, a) == WithDomain(domain, b)
    ensures a == b
  {
    var n := |domain| + 4;
    assert WithDomain(domain, a)[n..] == a;
    assert WithDomain(domain, b)[n..] == b;
  }

  function StateHash(k: Crypto, canonical: bytes): Bytes32 {
    k.sha256(WithDomain(STATE_HASH_DOMAIN, canonical))
  }

  datatype Sealed = Sealed(canonical: bytes, signature: bytes, stateHash: Bytes32)

  datatype Opened = Opened(projection: bytes, stateHash: Bytes32)

  /** The codecs that sealing and opening rest on. */
  datatype Codecs = Codecs(
    read: bytes -> Result<Control>,
    encode: Control -> Result<bytes>,
    decode: bytes -> Result<Control>,
    put: Control -> bytes)

  function CodecsOf(w: Wire, f: Frames.Frames): Codecs {
    Codecs((projection: bytes) => DecodeProjection(f, w.rules, projection), (c: Control) => EncodeControl(w, c),
           (canonical: bytes) => DecodeControl(w, canonical), (c: Control) => PutFrameControl(f, c, []))
  }

  /** `seal`, by a device given by its account and signing secret. */
  function Seal(c: Codecs, k: Crypto, userId: Bytes16, secret: bytes, projection: bytes): Result<Sealed> {
    var control :- c.read(projection);
    var _ :- Check(control.signerUser == userId, InvalidArgument);
    var canonical :- c.encode(control);
    Ok(Sealed(canonical, k.sign(secret, WithDomain(SIGNATURE_DOMAIN, canonical)), StateHash(k, canonical)))
  }

  /** `open`. */
  function Open(c: Codecs, k: Crypto, signer: bytes, canonical: bytes, signature: bytes): Result<Opened> {
    if canonical == [] then Err(MalformedInput)
    else if |canonical| > MAX_GROUP_CONTROL_BYTES then Err(InputTooLarge)
    else if !k.verify(signer, WithDomain(SIGNATURE_DOMAIN, canonical), signature) then Err(AuthenticationFailed)
    else
      var control :- c.decode(canonical);
      Ok(Opened(c.put(control), StateHash(k, canonical)))
  }

  lemma OpenOfSealWith(c: Codecs, k: Crypto, userId: Bytes16, secret: bytes, projection: bytes)
    requires forall m :: k.verify(k.publicKey(secret), m, k.sign(secret, m))
    requires Seal(c, k, userId, secret, projection).Ok?
    requires var control := c.read(projection).value;
      c.put(control) == projection && c.decode(c.encode(control).value) == Ok(control)
      && 0 < |c.encode(control).value| <= MAX_GROUP_CONTROL_BYTES
    ensures var sealed := Seal(c, k, userId, secret, projection).value;
      Open(c, k, k.publicKey(secret), sealed.canonical, sealed.signature) == Ok(Opened(projection, sealed.stateHash))
  {
  }

  /** What one device seals, every device that holds the signer's public key opens, to the same
      projection byte for byte and the same state hash. The one thing asked of the signature
      scheme is that signatures verify. */
  lemma OpenOfSeal(w: Wire, f: Frames.Frames, k: Crypto, userId: Bytes16, secret: bytes, projection: bytes)
    requires Sound(w) && Complete(w) && Compact(w) && Frames.Sound(f)
    requires forall m :: k.verify(k.publicKey(secret), m, k.sign(secret, m))
    requires Seal(CodecsOf(w, f), k, userId, secret, projection).Ok?
    ensures var sealed := Seal(CodecsOf(w, f), k, userId, secret, projection).value;
      Open(CodecsOf(w, f), k, k.publicKey(secret), sealed.canonical, sealed.signature)
        == Ok(Opened(projection, sealed.stateHash))
  {
    SealedReadsBack(w, f, projection);
    OpenOfSealWith(CodecsOf(w, f), k, userId, secret, projection);
  }

  lemma SealedReadsBack(w: Wire, f: Frames.Frames, projection: bytes)
    requires Sound(w) && Complete(w) && Compact(w) && Frames.Sound(f) && CodecsOf(w, f).read(projection).Ok?
    ensures var c := CodecsOf(w, f);
      var control := c.read(projection).value;
      && c.put(control) == projection && c.encode(control).Ok? && c.decode(c.encode(control).value) == Ok(control)
      && 0 < |c.encode(control).value| <= MAX_GROUP_CONTROL_BYTES
  {
    ProjectionSound(f, w.rules, projection);
    var control := DecodeProjection(f, w.rules, projection).value;
    EncodeThenDecode(w, control);
    ValidEncodes(w, control);
  }

  /** The same on bytes. */
  lemma SealThenOpen(rules: TextRules, k: Crypto, userId: Bytes16, secret: bytes, projection: bytes)
    requires forall m :: k.verify(k.publicKey(secret), m, k.sign(secret, m))
    requires Seal(CodecsOf(CborWire(rules), Frames.ByteFrames()), k, userId, secret, projection).Ok?
    ensures var c := CodecsOf(CborWire(rules), Frames.ByteFrames());
      var sealed := Seal(c, k, userId, secret, projection).value;
      Open(c, k, k.publicKey(secret), sealed.canonical, sealed.signature) == Ok(Opened(projection, sealed.stateHash))
  {
    CborWireSound(rules);
    CborWireComplete(rules);
    CborWireCompact(rules);
    Frames.ByteFramesSound();
    OpenOfSeal(CborWire(rules), Frames.ByteFrames(), k, userId, secret, projection);
  }

  // The hash chain

  /** `decode_control` on bytes. */
  function Decoder(rules: TextRules): bytes -> Result<Control> {
    (input: bytes) => DecodeControl(CborWire(rules), input)
  }

  function Hasher(k: Crypto): bytes -> Bytes32 {
    (canonical: bytes) => StateHash(k, canonical)
  }

  /** A transcript of accepted events, by their bytes: the first names no predecessor, each later
      one names the state hash of the one before it. */
  ghost predicate Chain(decode: bytes -> Result<Control>, hash: bytes -> Bytes32, transcript: seq<bytes>) {
    && transcript != []
    && var front, last := transcript[..|transcript| - 1], transcript[|transcript| - 1];
       && decode(last).Ok?
       && if front == [] then decode(last).value.previous == None
          else decode(last).value.previous == Some(HeadHash(hash, front)) && Chain(decode, hash, front)
  }

  function HeadHash(hash: bytes -> Bytes32, transcript: seq<bytes>): Bytes32
    requires transcript != []
  {
    hash(transcript[|transcript| - 1])
  }

  lemma {:induction false} SameHashSameBytes(
      decode: bytes -> Result<Control>, hash: bytes -> Bytes32, a: seq<bytes>, b: seq<bytes>)
    returns (x: bytes, y: bytes)
    requires Chain(decode, hash, a) && Chain(decode, hash, b) && HeadHash(hash, a) == HeadHash(hash, b)
    ensures a == b || (x != y && hash(x) == hash(y))
    decreases |a|
  {
    x, y := a[|a| - 1], b[|b| - 1];
    if x == y {
      var front, front' := a[..|a| - 1], b[..|b| - 1];
      assert a == front + [x] && b == front' + [y];
      if front != [] {
        x, y := SameHashSameBytes(decode, hash, front, front');
      }
    }
  }

  predicate Collision(k: Crypto, x: bytes, y: bytes) {
    x != y && k.sha256(x) == k.sha256(y)
  }

  /** Two transcripts that end in the same state hash are the same transcript, event for event; or
      else they exhibit a collision of SHA-256. */
  lemma SameHashSameTranscript(rules: TextRules, k: Crypto, a: seq<bytes>, b: seq<bytes>) returns (x: bytes, y: bytes)
    requires Chain(Decoder(rules), Hasher(k), a) && Chain(Decoder(rules), Hasher(k), b)
    requires HeadHash(Hasher(k), a) == HeadHash(Hasher(k), b)
    ensures a == b || Collision(k, x, y)
  {
    var u, v := SameHashSameBytes(Decoder(rules), Hasher(k), a, b);
    x, y := WithDomain(STATE_HASH_DOMAIN, u), WithDomain(STATE_HASH_DOMAIN, v);
    if x == y {
      WithDomainInjective(STATE_HASH_DOMAIN, u, v);
    }
  }

  /** What acceptance means: a valid event, and the bytes are its one encoding. */
  ghost predicate Canonical(rules: TextRules, input: bytes) {
    Decoder(rules)(input).Ok? ==>
      && Valid(rules, Decoder(rules)(input).value)
      && EncodeControl(CborWire(rules), Decoder(rules)(input).value) == Ok(input)
  }

  /** Accepted bytes are the one encoding of a valid event, and the readers with `validate` ensure it
      alone: the closing comparison never rejects. */
  lemma AcceptedIsCanonical(rules: TextRules, input: bytes)
    ensures Canonical(rules, input)
    ensures DecodeControl(CborWire(rules), input) == DecodeFields(CborWire(rules), input)
  {
    CborWireSound(rules);
    CborWireCompact(rules);
    ComparisonNeverRejects(CborWire(rules), input);
  }

  /** Every valid event is accepted from its own encoding, which stays below the byte cap. */
  lemma ValidIsAccepted(rules: TextRules, c: Control)
    requires Valid(rules, c)
    ensures var encoded := EncodeControl(CborWire(rules), c);
      encoded.Ok? && |encoded.value| < MAX_GROUP_CONTROL_BYTES && Decoder(rules)(encoded.value) == Ok(c)
  {
    CborWireSound(rules);
    CborWireComplete(rules);
    CborWireCompact(rules);
    EncodeThenDecode(CborWire(rules), c);
    ValidEncodes(CborWire(rules), c);
  }

  /** The other direction: devices that accepted the same events hold the same bytes, hence the
      same state hash, because an accepted event has one encoding. */
  lemma SameEventsSameTranscript(rules: TextRules, k: Crypto, a: seq<bytes>, b: seq<bytes>)
    requires a != [] && |a| == |b|
    requires forall i :: 0 <= i < |a| ==> Decoder(rules)(a[i]).Ok? && Decoder(rules)(a[i]) == Decoder(rules)(b[i])
    ensures a == b && HeadHash(Hasher(k), a) == HeadHash(Hasher(k), b)
  {
    forall i | 0 <= i < |a|
      ensures a[i] == b[i]
    {
      AcceptedIsCanonical(rules, a[i]);
      AcceptedIsCanonical(rules, b[i]);
    }
  }

  /** A chain of valid events opens with revision 1, which creates the group, and never creates
      it again. */
  lemma {:induction false} CreatedOnce(
      rules: TextRules, decode: bytes -> Result<Control>, hash: bytes -> Bytes32, a: seq<bytes>, i: nat)
    requires Chain(decode, hash, a) && i < |a|
    requires decode(a[i]).Ok? ==> Valid(rules, decode(a[i]).value)
    ensures decode(a[i]).Ok?
    ensures decode(a[i]).value.body.Create? <==> i == 0
    ensures decode(a[i]).value.revision == 1 <==> i == 0
  {
    if i < |a| - 1 {
      CreatedOnce(rules, decode, hash, a[..|a| - 1], i);
    }
  }
}
