/** Exactly what `seal` and `open` accept, and what they answer (group_control.rs). */
module GroupSealing {
  import opened Bytes
  import opened Texts
  import opened Lists
  import opened Wire
  import opened GroupControl
  import opened GroupTranscript
  import Frames
  import Framing

  // Every valid event reads back from its projection

  lemma FrameTextComplete(f: Frames.Frames, rules: TextRules, b: bytes, l: TextLimit, t: bytes)
    requires Frames.Complete(f) && WithinLimit(rules, b, l) && l.maxBytes <= MAX_INPUT_BYTES
    ensures ReadFrameText(f, rules, f.putFrame(b, t), l) == Ok((b, t))
  {
  }

  lemma MembersComplete(f: Frames.Frames, members: seq<Member>, t: bytes)
    requires Frames.Complete(f)
    ensures ReadList(MemberFrameReader(f), PutList(MemberFrameWriter(f), members, t), |members|) == Ok((members, t))
  {
    forall m: Member, u: bytes
      ensures MemberFrameReader(f)(MemberFrameWriter(f)(m, u)) == Ok((m, u))
    {
      var id: Bytes16 := m.userId;
      assert Framing.Fits(m.role, 1);
    }
    ListComplete(MemberFrameWriter(f), MemberFrameReader(f), (m: Member) => true, members, t);
  }

  lemma IdsFrameComplete(f: Frames.Frames, ids: seq<Bytes16>, t: bytes)
    requires Frames.Complete(f)
    ensures ReadList(IdFrameReader(f), PutList(IdFrameWriter(f), ids, t), |ids|) == Ok((ids, t))
  {
    forall id: Bytes16, u: bytes
      ensures IdFrameReader(f)(IdFrameWriter(f)(id, u)) == Ok((id, u))
    {
    }
    ListComplete(IdFrameWriter(f), IdFrameReader(f), (id: Bytes16) => true, ids, t);
  }

  lemma CreateFrameComplete(f: Frames.Frames, rules: TextRules, body: ControlBody, t: bytes)
    requires Frames.Complete(f) && body.Create? && BodyValid(rules, body)
    ensures ReadFrameBody(f, rules, 1, PutFrameBody(f, body, t)) == Ok((body, t))
  {
    MembersComplete(f, body.members, t);
    var s2 := f.putInt(|body.members|, 2, PutList(MemberFrameWriter(f), body.members, t));
    var s1 := f.putInt(body.invitationPolicy, 1, f.putInt(body.historyPolicy, 1, s2));
    FrameTextComplete(f, rules, body.description, DESCRIPTION_LIMIT, s1);
    FrameTextComplete(f, rules, body.name, NAME_LIMIT, f.putFrame(body.description, s1));
  }

  lemma FrameBodyComplete(f: Frames.Frames, rules: TextRules, body: ControlBody, t: bytes)
    requires Frames.Complete(f) && BodyValid(rules, body)
    ensures ReadFrameBody(f, rules, body.Kind(), PutFrameBody(f, body, t)) == Ok((body, t))
  {
    match body
    case Create(_, _, _, _, _) => CreateFrameComplete(f, rules, body, t);
    case AddMember(userIds) => IdsFrameComplete(f, userIds, t);
    case RemoveMember(userId) => var id: Bytes16 := userId;
    case ChangeRole(userId, _) => var id: Bytes16 := userId;
    case Rename(name, description) =>
      FrameTextComplete(f, rules, description, DESCRIPTION_LIMIT, t);
      FrameTextComplete(f, rules, name, NAME_LIMIT, f.putFrame(description, t));
  }

  lemma PreviousComplete(f: Frames.Frames, previous: Option<bytes>, t: bytes)
    requires Frames.Complete(f) && OptionLength(previous, 32)
    ensures ReadPrevious(f, PutPrevious(f, previous, t)) == Ok((previous, t))
  {
    assert Framing.Fits(0, 1) && Framing.Fits(1, 1);
  }

  lemma FrameControlComplete(f: Frames.Frames, rules: TextRules, c: Control)
    requires Frames.Complete(f) && Valid(rules, c)
    ensures ReadFrameControl(f, rules, PutFrameControl(f, c, [])) == Ok((c, []))
  {
    FrameBodyComplete(f, rules, c.body, []);
    var s := f.put(c.signerUser, f.put(c.signerDevice, f.putInt(c.createdMs, 8, f.putInt(c.body.Kind(), 1,
                   PutFrameBody(f, c.body, [])))));
    PreviousComplete(f, c.previous, s);
    var a: Bytes16, b: Bytes32, d: Bytes16, e: Bytes16 := c.eventId, c.groupId, c.signerUser, c.signerDevice;
  }

  lemma ProjectionReadsBack(f: Frames.Frames, rules: TextRules, c: Control)
    requires Frames.Complete(f) && Valid(rules, c)
    ensures DecodeProjection(f, rules, PutFrameControl(f, c, [])) == Ok(c)
  {
    FrameControlComplete(f, rules, c);
    assert Typed(rules, c);
  }

  lemma ProjectionExactlyWith(f: Frames.Frames, rules: TextRules, projection: bytes, c: Control)
    requires Frames.Sound(f) && Frames.Complete(f)
    ensures DecodeProjection(f, rules, projection) == Ok(c) <==>
      Valid(rules, c) && projection == PutFrameControl(f, c, [])
  {
    if Valid(rules, c) && projection == PutFrameControl(f, c, []) {
      ProjectionReadsBack(f, rules, c);
    } else if DecodeProjection(f, rules, projection) == Ok(c) {
      ProjectionSound(f, rules, projection);
    }
  }

  /** A projection is accepted exactly as the projection of a valid event. */
  lemma ProjectionExactly(rules: TextRules, projection: bytes, c: Control)
    ensures DecodeProjection(Frames.ByteFrames(), rules, projection) == Ok(c) <==>
      Valid(rules, c) && projection == PutFrameControl(Frames.ByteFrames(), c, [])
  {
    Frames.ByteFramesSound();
    Frames.ByteFramesComplete();
    ProjectionExactlyWith(Frames.ByteFrames(), rules, projection, c);
  }

  // Seal and open

  function ByteCodecs(rules: TextRules): Codecs {
    CodecsOf(CborWire(rules), Frames.ByteFrames())
  }

  function ProjectionOf(c: Control): bytes {
    PutFrameControl(Frames.ByteFrames(), c, [])
  }

  /** The bytes are the encoding of this valid event. */
  ghost predicate Encodes(rules: TextRules, c: Control, canonical: bytes) {
    Valid(rules, c) && EncodeControl(CborWire(rules), c) == Ok(canonical)
  }

  lemma DecodesExactly(rules: TextRules, canonical: bytes, c: Control)
    ensures DecodeControl(CborWire(rules), canonical) == Ok(c) <==> Encodes(rules, c, canonical)
  {
    AcceptedIsCanonical(rules, canonical);
    if Encodes(rules, c, canonical) {
      ValidIsAccepted(rules, c);
    }
  }

  /** `open` succeeds exactly when there are bytes and not too many, the signature verifies under the
      signer's key over those bytes behind the domain and their length, and they are the encoding of a
      valid event; it answers with that event's projection and hash. A signature that does not verify
      is refused whatever the bytes hold. */
  lemma OpenExactly(rules: TextRules, k: Crypto, signer: bytes, canonical: bytes, signature: bytes)
    ensures var r := Open(ByteCodecs(rules), k, signer, canonical, signature);
      var signed := k.verify(signer, SIGNATURE_DOMAIN + Framing.PutFrame(canonical, []), signature);
      && (r.Ok? <==>
            0 < |canonical| <= MAX_GROUP_CONTROL_BYTES && signed && exists c :: Encodes(rules, c, canonical))
      && (forall c :: r.Ok? && Encodes(rules, c, canonical) ==>
            r.value == Opened(ProjectionOf(c), k.sha256(STATE_HASH_DOMAIN + Framing.PutFrame(canonical, []))))
      && (0 < |canonical| <= MAX_GROUP_CONTROL_BYTES && !signed ==> r == Err(AuthenticationFailed))
  {
    var decoded := DecodeControl(CborWire(rules), canonical);
    if decoded.Ok? {
      DecodesExactly(rules, canonical, decoded.value);
    }
    forall c | Encodes(rules, c, canonical)
      ensures decoded == Ok(c)
    {
      DecodesExactly(rules, canonical, c);
    }
  }

  /** A sealed event's parts, given its encoding. */
  predicate SealOver(k: Crypto, secret: bytes, sealed: Sealed) {
    && sealed.signature == k.sign(secret, SIGNATURE_DOMAIN + Framing.PutFrame(sealed.canonical, []))
    && sealed.stateHash == k.sha256(STATE_HASH_DOMAIN + Framing.PutFrame(sealed.canonical, []))
  }

  lemma SealIs(c: Codecs, k: Crypto, userId: Bytes16, secret: bytes, projection: bytes)
    requires c.read(projection).Ok? ==> c.encode(c.read(projection).value).Ok?
    ensures var read, r := c.read(projection), Seal(c, k, userId, secret, projection);
      && (r.Ok? <==> read.Ok? && read.value.signerUser == userId)
      && (r.Ok? ==> SealOver(k, secret, r.value) && c.encode(read.value) == Ok(r.value.canonical))
  {
  }

  lemma SealReads(rules: TextRules, projection: bytes)
    ensures var read := ByteCodecs(rules).read(projection);
      && (read.Ok? ==> Valid(rules, read.value) && projection == ProjectionOf(read.value)
                       && ByteCodecs(rules).encode(read.value).Ok?)
      && (forall c :: Valid(rules, c) && projection == ProjectionOf(c) ==> read == Ok(c))
  {
    var read := DecodeProjection(Frames.ByteFrames(), rules, projection);
    if read.Ok? {
      ProjectionExactly(rules, projection, read.value);
      ValidIsAccepted(rules, read.value);
    }
    forall c | Valid(rules, c) && projection == ProjectionOf(c)
      ensures read == Ok(c)
    {
      ProjectionExactly(rules, projection, c);
    }
  }

  /** `seal` succeeds exactly on the projection of a valid event whose signer is the caller's account;
      it answers with the event's encoding, a signature over it, and its hash. */
  lemma SealExactly(rules: TextRules, k: Crypto, userId: Bytes16, secret: bytes, projection: bytes)
    ensures var r := Seal(ByteCodecs(rules), k, userId, secret, projection);
      && (r.Ok? <==> exists c :: Valid(rules, c) && projection == ProjectionOf(c) && c.signerUser == userId)
      && (forall c :: r.Ok? && Valid(rules, c) && projection == ProjectionOf(c) ==>
            Encodes(rules, c, r.value.canonical) && SealOver(k, secret, r.value))
  {
    SealReads(rules, projection);
    SealIs(ByteCodecs(rules), k, userId, secret, projection);
    EncodesIs(rules);
  }

  lemma EncodesIs(rules: TextRules)
    ensures forall c, b: bytes :: Valid(rules, c) && ByteCodecs(rules).encode(c) == Ok(b) ==> Encodes(rules, c, b)
  {
  }
}
