/** Deterministic CBOR items and the canonical readers of application.rs.

    An item head is the shortest form of section 4.1 of RFC 8949. The readers decode any head
    minicbor decodes and then compare the first byte with the shortest form. */
module Cbor {
  import opened Bytes
  import opened Digits
  import opened Framing
  import opened Texts

  const UINT: nat := 0
  const BYTE_STRING: nat := 2
  const TEXT_STRING: nat := 3
  const ARRAY: nat := 4
  const MAP: nat := 5

  const FALSE_BYTE: byte := 0xf4
  const TRUE_BYTE: byte := 0xf5
  const NULL_BYTE: byte := 0xf6

  /** The shortest head for a major type and argument. */
  function Head(major: nat, n: nat): (h: bytes)
    requires major < 8
    ensures 0 < |h| <= 9
  {
    if n < 24 then [major * 32 + n]
    else if n <= U8_MAX then [major * 32 + 24] + ToBe(n, 1)
    else if n <= U16_MAX then [major * 32 + 25] + ToBe(n, 2)
    else if n <= U32_MAX then [major * 32 + 26] + ToBe(n, 4)
    else [major * 32 + 27] + ToBe(n, 8)
  }

  function PutHead(major: nat, n: nat, t: bytes): bytes
    requires major < 8
  {
    Head(major, n) + t
  }

  /** The argument minicbor decodes after the first byte, in any of the five widths. */
  function RawArgument(s: bytes): (r: Parsed<nat>)
    requires s != []
  {
    var info := s[0] % 32;
    if info < 24 then Ok((info, s[1..]))
    else if info == 24 then ReadInt(s[1..], 1)
    else if info == 25 then ReadInt(s[1..], 2)
    else if info == 26 then ReadInt(s[1..], 4)
    else if info == 27 then ReadInt(s[1..], 8)
    else Err(MalformedInput)
  }

  /** `canonical_length_header`, and the same table written out in `read_uint` and
      `read_array_len`. */
  predicate CanonicalFirst(first: byte, n: nat, major: nat)
    requires major < 8
  {
    if n < 24 then first == major * 32 + n
    else if n <= U8_MAX then first == major * 32 + 24
    else if n <= U16_MAX then first == major * 32 + 25
    else if n <= U32_MAX then first == major * 32 + 26
    else first == major * 32 + 27
  }

  /** `read_uint`, `read_map_len` and `read_array_len` are this reader at majors 0, 5 and 4. */
  function ReadHead(s: bytes, major: nat): (r: Parsed<nat>)
    requires major < 8
    ensures r.Ok? ==> s == PutHead(major, r.value.0, r.value.1) && r.value.0 <= U64_MAX
    ensures r.Ok? ==> |r.value.1| < |s|
    ensures r.Err? ==> r.error == MalformedInput
  {
    if s == [] || s[0] / 32 != major || s[0] % 32 == 31 then Err(MalformedInput)
    else
      var (n, t) :- RawArgument(s);
      if CanonicalFirst(s[0], n, major) then
        HeadSplits(s, major, n, t);
        Ok((n, t))
      else Err(MalformedInput)
  }

  lemma HeadSplits(s: bytes, major: nat, n: nat, t: bytes)
    requires s != [] && major < 8 && s[0] / 32 == major
    requires RawArgument(s) == Ok((n, t)) && CanonicalFirst(s[0], n, major)
    ensures s == PutHead(major, n, t) && n <= U64_MAX && |t| < |s|
  {
    assert s == [s[0]] + s[1..];
  }

  /** The shortest head reads back: the reader refuses no canonical head. */
  lemma ReadPutHead(major: nat, n: nat, t: bytes)
    requires major < 8 && n <= U64_MAX
    ensures ReadHead(PutHead(major, n, t), major) == Ok((n, t))
  {
    var s := PutHead(major, n, t);
    var h := Head(major, n);
    var width :=
      if n < 24 then 0
      else if n <= U8_MAX then 1
      else if n <= U16_MAX then 2
      else if n <= U32_MAX then 4
      else 8;
    assert s[0] == h[0];
    if width == 0 {
      assert s[1..] == t;
    } else {
      assert s[1..] == PutInt(n, width, t);
      ReadPutInt(n, width, t);
    }
  }

  function PutUint(n: u64, t: bytes): bytes {
    PutHead(UINT, n, t)
  }

  function ReadUint(s: bytes): (r: Parsed<u64>)
    ensures r.Ok? ==> s == PutUint(r.value.0, r.value.1) && |r.value.1| < |s|
  {
    ReadHead(s, UINT)
  }

  function PutMap(n: u64, t: bytes): bytes {
    PutHead(MAP, n, t)
  }

  function ReadMap(s: bytes): (r: Parsed<u64>)
    ensures r.Ok? ==> s == PutMap(r.value.0, r.value.1) && |r.value.1| < |s|
  {
    ReadHead(s, MAP)
  }

  function PutArray(n: nat, t: bytes): bytes {
    PutHead(ARRAY, n, t)
  }

  function ReadArray(s: bytes): (r: Parsed<u64>)
    ensures r.Ok? ==> s == PutArray(r.value.0, r.value.1) && |r.value.1| < |s|
  {
    ReadHead(s, ARRAY)
  }

  /** Lengths are 64-bit in the source; a byte string in memory never exceeds that. */
  function PutByteString(b: bytes, t: bytes): bytes {
    PutHead(BYTE_STRING, |b|, b + t)
  }

  function ReadByteString(s: bytes): (r: Parsed<bytes>)
    ensures r.Ok? ==> s == PutByteString(r.value.0, r.value.1) && |r.value.1| < |s|
    ensures r.Ok? ==> |r.value.0| <= U64_MAX
  {
    var (n, s1) :- ReadHead(s, BYTE_STRING);
    Take(s1, n)
  }

  function ReadExactString(s: bytes, n: nat): (r: Parsed<bytes>)
    ensures r.Ok? ==> s == PutByteString(r.value.0, r.value.1) && |r.value.0| == n && |r.value.1| < |s|
  {
    var (b, t) :- ReadByteString(s);
    if |b| == n then Ok((b, t)) else Err(MalformedInput)
  }

  function PutText(b: bytes, t: bytes): bytes {
    PutHead(TEXT_STRING, |b|, b + t)
  }

  function ReadText(rules: TextRules, s: bytes, l: TextLimit): (r: Parsed<bytes>)
    ensures r.Ok? ==> s == PutText(r.value.0, r.value.1) && |r.value.1| < |s|
    ensures r.Ok? ==> WithinLimit(rules, r.value.0, l)
  {
    var (n, s1) :- ReadHead(s, TEXT_STRING);
    var (b, t) :- Take(s1, n);
    if !rules.utf8(b) then Err(MalformedInput)
    else if |b| > l.maxBytes || rules.scalars(b) > l.maxScalars then Err(InputTooLarge)
    else if l.nonEmpty && b == [] then Err(MalformedInput)
    else Ok((b, t))
  }

  function PutSimple(b: byte, t: bytes): bytes {
    [b] + t
  }

  function ReadNull(s: bytes): (r: Result<bytes>)
    ensures r.Ok? ==> s == PutSimple(NULL_BYTE, r.value)
  {
    if s == [] || s[0] != NULL_BYTE then Err(MalformedInput) else Ok(s[1..])
  }

  function PutFlag(v: bool, t: bytes): bytes {
    PutSimple(if v then TRUE_BYTE else FALSE_BYTE, t)
  }

  function ReadFlag(s: bytes): (r: Parsed<bool>)
    ensures r.Ok? ==> s == PutFlag(r.value.0, r.value.1) && |r.value.1| < |s|
  {
    if s == [] then Err(MalformedInput)
    else if s[0] == FALSE_BYTE then Ok((false, s[1..]))
    else if s[0] == TRUE_BYTE then Ok((true, s[1..]))
    else Err(MalformedInput)
  }

  function PutOptionalBytes(v: Option<bytes>, t: bytes): bytes {
    match v
    case None => PutSimple(NULL_BYTE, t)
    case Some(b) => PutByteString(b, t)
  }

  /** `read_nullable_id`, at any exact length. */
  function ReadOptionalExact(s: bytes, n: nat): (r: Parsed<Option<bytes>>)
    ensures r.Ok? ==> s == PutOptionalBytes(r.value.0, r.value.1) && |r.value.1| < |s|
    ensures r.Ok? ==> OptionLength(r.value.0, n)
  {
    if s == [] then Err(MalformedInput)
    else if s[0] == NULL_BYTE then Ok((None, s[1..]))
    else
      var (b, t) :- ReadExactString(s, n);
      Ok((Some(b), t))
  }

  function PutOptionalText(v: Option<bytes>, t: bytes): bytes {
    match v
    case None => PutSimple(NULL_BYTE, t)
    case Some(b) => PutText(b, t)
  }

  /** `read_nullable_text`. */
  function ReadOptionalText(rules: TextRules, s: bytes, l: TextLimit): (r: Parsed<Option<bytes>>)
    ensures r.Ok? ==> s == PutOptionalText(r.value.0, r.value.1) && |r.value.1| < |s|
    ensures r.Ok? ==> OptionWithinLimit(rules, r.value.0, l)
  {
    if s == [] then Err(MalformedInput)
    else if s[0] == NULL_BYTE then Ok((None, s[1..]))
    else
      var (b, t) :- ReadText(rules, s, l.(nonEmpty := true));
      Ok((Some(b), t))
  }

  // Every item reads back, whatever follows it.

  lemma UintsReadBack()
    ensures forall n: u64, t: bytes :: ReadUint(PutUint(n, t)) == Ok((n, t))
  {
    forall n: u64, t: bytes
      ensures ReadUint(PutUint(n, t)) == Ok((n, t))
    {
      ReadPutHead(UINT, n, t);
    }
  }

  lemma ContainersReadBack()
    ensures forall n: u64, t: bytes :: ReadMap(PutMap(n, t)) == Ok((n, t))
    ensures forall n: u64, t: bytes :: ReadArray(PutArray(n, t)) == Ok((n, t))
  {
    forall n: u64, t: bytes
      ensures ReadMap(PutMap(n, t)) == Ok((n, t))
      ensures ReadArray(PutArray(n, t)) == Ok((n, t))
    {
      ReadPutHead(MAP, n, t);
      ReadPutHead(ARRAY, n, t);
    }
  }

  lemma ByteStringReadsBack(b: bytes, t: bytes)
    requires |b| <= U64_MAX
    ensures ReadByteString(PutByteString(b, t)) == Ok((b, t))
    ensures ReadExactString(PutByteString(b, t), |b|) == Ok((b, t))
    ensures PutByteString(b, t)[0] / 32 == BYTE_STRING
    ensures ReadOptionalExact(PutByteString(b, t), |b|) == Ok((Some(b), t))
  {
    ReadPutHead(BYTE_STRING, |b|, b + t);
    TakePut(b, t);
    assert Put(b, t) == b + t;
  }

  lemma TextReadsBack(rules: TextRules, b: bytes, t: bytes, l: TextLimit)
    requires l.maxBytes <= U64_MAX && WithinLimit(rules, b, l)
    ensures ReadText(rules, PutText(b, t), l) == Ok((b, t))
    ensures PutText(b, t)[0] / 32 == TEXT_STRING
  {
    ReadPutHead(TEXT_STRING, |b|, b + t);
    TakePut(b, t);
    assert Put(b, t) == b + t;
  }

  lemma FlagsReadBack()
    ensures forall v: bool, t: bytes :: ReadFlag(PutFlag(v, t)) == Ok((v, t))
  {
    forall v: bool, t: bytes
      ensures ReadFlag(PutFlag(v, t)) == Ok((v, t))
    {
      assert PutFlag(v, t)[1..] == t;
    }
  }

  lemma OptionalBytesReadBack(v: Option<bytes>, n: nat, t: bytes)
    requires n <= U64_MAX && OptionLength(v, n)
    ensures ReadOptionalExact(PutOptionalBytes(v, t), n) == Ok((v, t))
  {
    match v
    case None => assert PutSimple(NULL_BYTE, t)[1..] == t;
    case Some(b) => ByteStringReadsBack(b, t);
  }

  lemma OptionalTextReadsBack(rules: TextRules, v: Option<bytes>, l: TextLimit, t: bytes)
    requires l.maxBytes <= U64_MAX && OptionWithinLimit(rules, v, l)
    ensures ReadOptionalText(rules, PutOptionalText(v, t), l) == Ok((v, t))
  {
    match v
    case None => assert PutSimple(NULL_BYTE, t)[1..] == t;
    case Some(b) => TextReadsBack(rules, b, t, l.(nonEmpty := true));
  }
}
