/** Signed control events for groups (group_control.rs): canonical form, validation, and the hash
    chain over accepted events. */
module GroupControl {
  import opened Bytes
  import opened Texts
  import opened Lists
  import opened Wire

  const GROUP_CONTROL_VERSION: byte := 1
  const MAX_GROUP_CONTROL_BYTES: nat := 16_384
  const MAX_MEMBERS: nat := 50
  const MAX_ROLE: nat := 2
  const ROLE_OWNER: nat := 0
  const MAX_INVITATION_POLICY: nat := 2
  const MAX_HISTORY_POLICY: nat := 1
  const MAX_CREATED_MS: nat := 8_640_000_000_000_000
  const NAME_LIMIT: TextLimit := TextLimit(400, 100, true)
  const DESCRIPTION_LIMIT: TextLimit := TextLimit(4_000, 1_000, false)

  datatype Member = Member(userId: Bytes16, role: byte)

  datatype ControlBody =
    | Create(name: bytes, description: bytes, invitationPolicy: byte, historyPolicy: byte, members: seq<Member>)
    | AddMember(userIds: seq<Bytes16>)
    | RemoveMember(userId: Bytes16)
    | ChangeRole(userId: Bytes16, role: byte)
    | Rename(name: bytes, description: bytes)
  {
    function Kind(): byte {
      match this
      case Create(_, _, _, _, _) => 1
      case AddMember(_) => 2
      case RemoveMember(_) => 3
      case ChangeRole(_, _) => 4
      case Rename(_, _) => 5
    }
  }

  datatype Control = Control(
    eventId: Bytes16,
    groupId: Bytes32,
    revision: u32,
    previous: Option<bytes>,
    signerUser: Bytes16,
    signerDevice: Bytes16,
    createdMs: u64,
    body: ControlBody)

  // Validation

  /** Lexicographic order on byte strings. */
  predicate LexLess(a: bytes, b: bytes) {
    if a == [] then b != []
    else b != [] && (a[0] < b[0] || (a[0] == b[0] && LexLess(a[1..], b[1..])))
  }

  predicate AscendingIds(ids: seq<Bytes16>) {
    forall i :: 0 <= i < |ids| - 1 ==> LexLess(ids[i], ids[i + 1])
  }

  predicate AscendingMembers(members: seq<Member>) {
    forall i :: 0 <= i < |members| - 1 ==> LexLess(members[i].userId, members[i + 1].userId)
  }

  function Owners(members: seq<Member>): nat {
    if members == [] then 0
    else (if members[0].role == ROLE_OWNER then 1 else 0) + Owners(members[1..])
  }

  /** `validate_metadata`. UTF-8 is a property of the source's string type. */
  predicate MetadataOk(rules: TextRules, name: bytes, description: bytes) {
    WithinLimit(rules, name, NAME_LIMIT) && WithinLimit(rules, description, DESCRIPTION_LIMIT)
  }

  predicate BodyValid(rules: TextRules, body: ControlBody) {
    match body
    case Create(name, description, invitationPolicy, historyPolicy, members) =>
      && MetadataOk(rules, name, description)
      && 0 < |members| <= MAX_MEMBERS
      && invitationPolicy <= MAX_INVITATION_POLICY
      && historyPolicy <= MAX_HISTORY_POLICY
      && Owners(members) == 1
      && (forall i :: 0 <= i < |members| ==> members[i].role <= MAX_ROLE)
      && AscendingMembers(members)
    case AddMember(userIds) => 0 < |userIds| < MAX_MEMBERS && AscendingIds(userIds)
    case RemoveMember(_) => true
    case ChangeRole(_, role) => role <= MAX_ROLE
    case Rename(name, description) => MetadataOk(rules, name, description)
  }

  /** `validate`: the first revision, and only it, creates the group and names no predecessor. */
  predicate Valid(rules: TextRules, c: Control) {
    && c.revision != 0
    && (c.revision == 1 <==> c.body.Create?)
    && (c.revision == 1 <==> c.previous.None?)
    && c.createdMs <= MAX_CREATED_MS
    && !AllZero(c.eventId) && !AllZero(c.groupId) && !AllZero(c.signerUser) && !AllZero(c.signerDevice)
    && OptionLength(c.previous, 32)
    && BodyValid(rules, c.body)
  }

  /** What the source's types already guarantee: strings are UTF-8, hashes are 32 bytes. */
  predicate Typed(rules: TextRules, c: Control) {
    && OptionLength(c.previous, 32)
    && (c.body.Create? || c.body.Rename? ==> rules.utf8(c.body.name) && rules.utf8(c.body.description))
  }

  function ValidateMetadata(rules: TextRules, name: bytes, description: bytes): Result<()> {
    if |name| > NAME_LIMIT.maxBytes || rules.scalars(name) > NAME_LIMIT.maxScalars
       || |description| > DESCRIPTION_LIMIT.maxBytes || rules.scalars(description) > DESCRIPTION_LIMIT.maxScalars
    then Err(InputTooLarge)
    else if name == [] then Err(MalformedInput)
    else Ok(())
  }

  /** `validate`, check by check. */
  function Validate(rules: TextRules, c: Control): (r: Result<()>)
    ensures Typed(rules, c) ==> (r.Ok? <==> Valid(rules, c))
  {
    var first := c.revision == 1;
    if c.revision == 0 || first != c.body.Create? || first != c.previous.None? || c.createdMs > MAX_CREATED_MS
       || AllZero(c.eventId) || AllZero(c.groupId) || AllZero(c.signerUser) || AllZero(c.signerDevice)
    then Err(MalformedInput)
    else
      match c.body
      case Create(name, description, invitationPolicy, historyPolicy, members) =>
        var _ :- ValidateMetadata(rules, name, description);
        if |members| > MAX_MEMBERS then Err(InputTooLarge)
        else if invitationPolicy > MAX_INVITATION_POLICY || historyPolicy > MAX_HISTORY_POLICY || members == []
                || Owners(members) != 1 || (exists i :: 0 <= i < |members| && members[i].role > MAX_ROLE)
                || !AscendingMembers(members)
        then Err(MalformedInput)
        else Ok(())
      case AddMember(userIds) =>
        if |userIds| >= MAX_MEMBERS then Err(InputTooLarge)
        else if userIds == [] || !AscendingIds(userIds) then Err(MalformedInput)
        else Ok(())
      case RemoveMember(_) => Ok(())
      case ChangeRole(_, role) => if role > MAX_ROLE then Err(MalformedInput) else Ok(())
      case Rename(name, description) => ValidateMetadata(rules, name, description)
  }

  // The canonical form

  function MemberWriter(w: Wire): (Member, bytes) -> bytes {
    (m: Member, t: bytes) => w.putPair(m.userId, m.role, t)
  }

  function PutBody(w: Wire, body: ControlBody, t: bytes): bytes {
    match body
    case Create(name, description, invitationPolicy, historyPolicy, members) =>
      w.putMap(5,
      w.putText(0, name,
      w.putText(1, description,
      w.putUint(2, invitationPolicy,
      w.putUint(3, historyPolicy,
      w.putArray(4, |members|, PutList(MemberWriter(w), members, t)))))))
    case AddMember(userIds) => w.putMap(1, w.putArray(0, |userIds|, PutIds(w, userIds, t)))
    case RemoveMember(userId) => w.putMap(1, w.putBytes(0, userId, t))
    case ChangeRole(userId, role) => w.putMap(2, w.putBytes(0, userId, w.putUint(1, role, t)))
    case Rename(name, description) => w.putMap(2, w.putText(0, name, w.putText(1, description, t)))
  }

  function PutFixed(w: Wire, c: Control, t: bytes): bytes {
    w.putMap(10,
    w.putUint(0, GROUP_CONTROL_VERSION,
    w.putBytes(1, c.eventId,
    w.putBytes(2, c.groupId,
    w.putUint(3, c.revision,
    w.putOptionalBytes(4, c.previous,
    w.putBytes(5, c.signerUser,
    w.putBytes(6, c.signerDevice,
    w.putUint(7, c.createdMs, t)))))))))
  }

  function PutControl(w: Wire, c: Control, t: bytes): bytes {
    PutFixed(w, c, w.putUint(8, c.body.Kind(), w.putKey(9, PutBody(w, c.body, t))))
  }

  /** `encode_control`. */
  function EncodeControl(w: Wire, c: Control): Result<bytes> {
    if |PutControl(w, c, [])| > MAX_GROUP_CONTROL_BYTES then Err(InputTooLarge) else Ok(PutControl(w, c, []))
  }

  // The decoder

  /** `small`. */
  function ReadSmall(w: Wire, s: bytes, k: u64): Parsed<byte> {
    var (v, t) :- w.readUint(s, k);
    if v <= U8_MAX then Ok((v, t)) else Err(MalformedInput)
  }

  function ReadMember(w: Wire, s: bytes): Parsed<Member> {
    var (pair, t) :- w.readPair(s, 16);
    if |pair.0| == 16 && pair.1 <= U8_MAX then Ok((Member(pair.0, pair.1), t)) else Err(MalformedInput)
  }

  function MemberReader(w: Wire): bytes -> Parsed<Member> {
    (s: bytes) => ReadMember(w, s)
  }

  /** `decode_body`. */
  function ReadBody(w: Wire, kind: byte, s: bytes): Parsed<ControlBody> {
    if kind == 1 then
      var s :- ReadExactMap(w, s, 5);
      var (name, s) :- w.readText(s, 0, NAME_LIMIT);
      var (description, s) :- w.readText(s, 1, DESCRIPTION_LIMIT);
      var (invitationPolicy, s) :- ReadSmall(w, s, 2);
      var (historyPolicy, s) :- ReadSmall(w, s, 3);
      var (count, s) :- w.readArray(s, 4);
      var _ :- Check(count <= MAX_MEMBERS, InputTooLarge);
      var (members, s) :- ReadList(MemberReader(w), s, count);
      Ok((Create(name, description, invitationPolicy, historyPolicy, members), s))
    else if kind == 2 then
      var s :- ReadExactMap(w, s, 1);
      var (count, s) :- w.readArray(s, 0);
      var _ :- Check(count < MAX_MEMBERS, InputTooLarge);
      var (userIds, s) :- ReadIds(w, s, count);
      Ok((AddMember(userIds), s))
    else if kind == 3 then
      var s :- ReadExactMap(w, s, 1);
      var (userId, s) :- ReadExact(w, s, 0, 16);
      Ok((RemoveMember(userId), s))
    else if kind == 4 then
      var s :- ReadExactMap(w, s, 2);
      var (userId, s) :- ReadExact(w, s, 0, 16);
      var (role, s) :- ReadSmall(w, s, 1);
      Ok((ChangeRole(userId, role), s))
    else if kind == 5 then
      var s :- ReadExactMap(w, s, 2);
      var (name, s) :- w.readText(s, 0, NAME_LIMIT);
      var (description, s) :- w.readText(s, 1, DESCRIPTION_LIMIT);
      Ok((Rename(name, description), s))
    else Err(UnsupportedOperation)
  }

  /** Keys 0 to 7, with a placeholder body. */
  function ReadFixed(w: Wire, s: bytes): Parsed<Control> {
    var s :- ReadExactMap(w, s, 10);
    var (version, s) :- w.readUint(s, 0);
    var _ :- Check(version == GROUP_CONTROL_VERSION, UnsupportedVersion);
    var (eventId, s) :- ReadExact(w, s, 1, 16);
    var (groupId, s) :- ReadExact(w, s, 2, 32);
    var (revision, s) :- w.readUint(s, 3);
    var _ :- Check(revision <= U32_MAX, MalformedInput);
    var (previous, s) :- ReadOptionalExactly(w, s, 4, 32);
    var (signerUser, s) :- ReadExact(w, s, 5, 16);
    var (signerDevice, s) :- ReadExact(w, s, 6, 16);
    var (createdMs, s) :- w.readUint(s, 7);
    Ok((Control(eventId, groupId, revision, previous, signerUser, signerDevice, createdMs, AddMember([])), s))
  }

  function ReadControl(w: Wire, s: bytes): Parsed<Control> {
    var (fixed, s) :- ReadFixed(w, s);
    var (kind, s) :- ReadSmall(w, s, 8);
    var s :- w.readKey(s, 9);
    var (body, s) :- ReadBody(w, kind, s);
    Ok((fixed.(body := body), s))
  }

  /** `decode_control` up to the closing comparison. */
  function DecodeFields(w: Wire, input: bytes): Result<Control> {
    var (control, s) :- ReadControl(w, input);
    var _ :- Check(s == [], MalformedInput);
    var _ :- Validate(w.rules, control);
    Ok(control)
  }

  /** `decode_control`: the fields, and then the input must equal its own re-encoding. */
  function DecodeControl(w: Wire, input: bytes): Result<Control> {
    var control :- DecodeFields(w, input);
    var encoded :- EncodeControl(w, control);
    if encoded == input then Ok(control) else Err(MalformedInput)
  }

  // The readers accept canonical bytes only

  lemma MembersSound(w: Wire, s: bytes, n: nat)
    requires Sound(w) && ReadList(MemberReader(w), s, n).Ok?
    ensures s
      == PutList(MemberWriter(w), ReadList(MemberReader(w), s, n).value.0, ReadList(MemberReader(w), s, n).value.1)
  {
    ListSound(MemberWriter(w), MemberReader(w), (m: Member) => true, s, n);
  }

  lemma BodySound(w: Wire, kind: byte, s: bytes)
    requires Sound(w) && ReadBody(w, kind, s).Ok?
    ensures ReadBody(w, kind, s).value.0.Kind() == kind
    ensures s == PutBody(w, ReadBody(w, kind, s).value.0, ReadBody(w, kind, s).value.1)
    ensures var body := ReadBody(w, kind, s).value.0;
      body.Create? || body.Rename? ==> w.rules.utf8(body.name) && w.rules.utf8(body.description)
  {
    if kind == 1 {
      CreateSound(w, s);
    } else if kind == 2 {
      var (count, s1) := w.readArray(ReadExactMap(w, s, 1).value, 0).value;
      IdsSound(w, s1, count);
    }
  }

  lemma CreateSound(w: Wire, s: bytes)
    requires Sound(w) && ReadBody(w, 1, s).Ok?
    ensures ReadBody(w, 1, s).value.0.Create?
    ensures w.rules.utf8(ReadBody(w, 1, s).value.0.name) && w.rules.utf8(ReadBody(w, 1, s).value.0.description)
    ensures s == PutBody(w, ReadBody(w, 1, s).value.0, ReadBody(w, 1, s).value.1)
  {
    forall s, n: nat | ReadList(MemberReader(w), s, n).Ok?
      ensures s
        == PutList(MemberWriter(w), ReadList(MemberReader(w), s, n).value.0, ReadList(MemberReader(w), s, n).value.1)
    {
      MembersSound(w, s, n);
    }
  }

  lemma FixedSound(w: Wire, s: bytes)
    requires Sound(w) && ReadFixed(w, s).Ok?
    ensures s == PutFixed(w, ReadFixed(w, s).value.0, ReadFixed(w, s).value.1)
  {
  }

  lemma ControlSound(w: Wire, s: bytes)
    requires Sound(w) && ReadControl(w, s).Ok?
    ensures s == PutControl(w, ReadControl(w, s).value.0, ReadControl(w, s).value.1)
    ensures Typed(w.rules, ReadControl(w, s).value.0)
  {
    FixedSound(w, s);
    var s1 := ReadFixed(w, s).value.1;
    var (kind, s2) := ReadSmall(w, s1, 8).value;
    BodySound(w, kind, w.readKey(s2, 9).value);
  }

  // Every valid event is read back

  lemma BodyComplete(w: Wire, body: ControlBody, t: bytes)
    requires Complete(w) && BodyValid(w.rules, body)
    ensures ReadBody(w, body.Kind(), PutBody(w, body, t)) == Ok((body, t))
  {
    match body
    case Create(_, _, _, _, members) =>
      MembersComplete(w, members, t);
    case AddMember(userIds) => IdsComplete(w, userIds, t);
    case _ =>
  }

  lemma MembersComplete(w: Wire, members: seq<Member>, t: bytes)
    requires Complete(w)
    ensures ReadList(MemberReader(w), PutList(MemberWriter(w), members, t), |members|) == Ok((members, t))
  {
    forall m: Member, t: bytes
      ensures ReadMember(w, MemberWriter(w)(m, t)) == Ok((m, t))
    {
      var id: Bytes16 := m.userId;
      assert w.readPair(w.putPair(id, m.role, t), |id|) == Ok(((id, m.role), t));
    }
    ListComplete(MemberWriter(w), MemberReader(w), (m: Member) => true, members, t);
  }

  lemma FixedComplete(w: Wire, c: Control, t: bytes)
    requires Complete(w) && OptionLength(c.previous, 32)
    ensures ReadFixed(w, PutFixed(w, c, t)) == Ok((c.(body := AddMember([])), t))
  {
  }

  lemma ControlComplete(w: Wire, c: Control, t: bytes)
    requires Complete(w) && Valid(w.rules, c)
    ensures ReadControl(w, PutControl(w, c, t)) == Ok((c, t))
  {
    BodyComplete(w, c.body, t);
    FixedComplete(w, c, w.putUint(8, c.body.Kind(), w.putKey(9, PutBody(w, c.body, t))));
  }

  // Sizes: no valid event comes near the cap

  lemma {:induction false} MembersSize(w: Wire, members: seq<Member>, t: bytes)
    requires Compact(w)
    ensures |PutList(MemberWriter(w), members, t)| <= |t| + 43 * |members|
  {
    if members != [] {
      var id: Bytes16 := members[0].userId;
      var rest := PutList(MemberWriter(w), members[1..], t);
      MembersSize(w, members[1..], t);
      assert |w.putPair(id, members[0].role, rest)| <= |rest| + 43;
    }
  }

  lemma {:induction false} IdsSize(w: Wire, ids: seq<Bytes16>, t: bytes)
    requires Compact(w)
    ensures |PutIds(w, ids, t)| <= |t| + 25 * |ids|
  {
    if ids != [] {
      var rest := PutIds(w, ids[1..], t);
      IdsSize(w, ids[1..], t);
      assert |w.putElement(ids[0], rest)| <= |rest| + 25;
    }
  }

  lemma BodySize(w: Wire, body: ControlBody, t: bytes)
    requires Compact(w) && BodyValid(w.rules, body)
    ensures |PutBody(w, body, t)| <= |t| + 6_700
  {
    match body
    case Create(_, _, _, _, members) => MembersSize(w, members, t);
    case AddMember(userIds) => IdsSize(w, userIds, t);
    case _ =>
  }

  lemma FixedSize(w: Wire, c: Control, t: bytes)
    requires Compact(w) && OptionLength(c.previous, 32)
    ensures |PutFixed(w, c, t)| <= |t| + 300
  {
  }

  /** A valid event always encodes: the byte cap refuses nothing. */
  lemma ValidEncodes(w: Wire, c: Control)
    requires Compact(w) && Valid(w.rules, c)
    ensures 0 < |PutControl(w, c, [])| < MAX_GROUP_CONTROL_BYTES
    ensures EncodeControl(w, c) == Ok(PutControl(w, c, []))
  {
    BodySize(w, c.body, []);
    FixedSize(w, c, w.putUint(8, c.body.Kind(), w.putKey(9, PutBody(w, c.body, []))));
  }

  // What the decoder does, exactly

  /** The closing comparison of `decode_control` never rejects: the readers and `validate` already
      force the canonical bytes. */
  lemma ComparisonNeverRejects(w: Wire, input: bytes)
    requires Sound(w) && Compact(w)
    ensures DecodeControl(w, input) == DecodeFields(w, input)
    ensures DecodeControl(w, input).Ok? ==>
      Valid(w.rules, DecodeControl(w, input).value) && EncodeControl(w, DecodeControl(w, input).value) == Ok(input)
  {
    if DecodeFields(w, input).Ok? {
      ControlSound(w, input);
      ValidEncodes(w, DecodeFields(w, input).value);
    }
  }

  /** Every valid event has an encoding, and decoding it gives the event back. */
  lemma EncodeThenDecode(w: Wire, c: Control)
    requires Sound(w) && Complete(w) && Compact(w) && Valid(w.rules, c)
    ensures EncodeControl(w, c).Ok? && DecodeControl(w, EncodeControl(w, c).value) == Ok(c)
  {
    ValidEncodes(w, c);
    ControlComplete(w, c, []);
    ComparisonNeverRejects(w, EncodeControl(w, c).value);
  }
}
