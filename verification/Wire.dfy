/** The item readers and writers as an interface.

    Every value of the application protocol sits in a map under a small integer key, so the
    interface is keyed: `w.readUint(s, 3)` is `read_key(3)` followed by `read_uint`. The event and
    group-control codecs are written against a `Wire` and proved from its laws alone; `CborWire`
    is the only instance, and `CborWireLawful` is where bytes are looked at. */
module Wire {
  import opened Bytes
  import opened Texts
  import opened Cbor
  import opened Lists

  datatype Wire = Wire(
    rules: TextRules,
    putMap: (u64, bytes) -> bytes,
    readMap: bytes -> Parsed<u64>,
    putKey: (u64, bytes) -> bytes,
    readKey: (bytes, u64) -> Result<bytes>,
    putUint: (u64, u64, bytes) -> bytes,
    readUint: (bytes, u64) -> Parsed<u64>,
    putBytes: (u64, bytes, bytes) -> bytes,
    readBytes: (bytes, u64) -> Parsed<bytes>,
    putText: (u64, bytes, bytes) -> bytes,
    readText: (bytes, u64, TextLimit) -> Parsed<bytes>,
    putFlag: (u64, bool, bytes) -> bytes,
    readFlag: (bytes, u64) -> Parsed<bool>,
    putOptionalBytes: (u64, Option<bytes>, bytes) -> bytes,
    readOptionalBytes: (bytes, u64, nat) -> Parsed<Option<bytes>>,
    putOptionalText: (u64, Option<bytes>, bytes) -> bytes,
    readOptionalText: (bytes, u64, TextLimit) -> Parsed<Option<bytes>>,
    putArray: (u64, nat, bytes) -> bytes,
    readArray: (bytes, u64) -> Parsed<u64>,
    putElement: (bytes, bytes) -> bytes,
    readElement: (bytes, nat) -> Parsed<bytes>,
    putPair: (bytes, u64, bytes) -> bytes,
    readPair: (bytes, nat) -> Parsed<(bytes, u64)>)

  /** Readers accept only what the writers write. */
  ghost predicate Sound(w: Wire) {
    && (forall s: bytes :: w.readMap(s).Ok? ==> s == w.putMap(w.readMap(s).value.0, w.readMap(s).value.1))
    && (forall s: bytes, k: u64 :: w.readKey(s, k).Ok? ==> s == w.putKey(k, w.readKey(s, k).value))
    && (forall s: bytes, k: u64 :: w.readUint(s, k).Ok? ==>
        s == w.putUint(k, w.readUint(s, k).value.0, w.readUint(s, k).value.1))
    && (forall s: bytes, k: u64 :: w.readBytes(s, k).Ok? ==>
        s == w.putBytes(k, w.readBytes(s, k).value.0, w.readBytes(s, k).value.1))
    && (forall s: bytes, k: u64 :: w.readFlag(s, k).Ok? ==>
        s == w.putFlag(k, w.readFlag(s, k).value.0, w.readFlag(s, k).value.1))
    && (forall s: bytes, k: u64 :: w.readArray(s, k).Ok? ==>
        s == w.putArray(k, w.readArray(s, k).value.0, w.readArray(s, k).value.1))
    && (forall s: bytes, n: nat :: w.readElement(s, n).Ok? ==>
          && s == w.putElement(w.readElement(s, n).value.0, w.readElement(s, n).value.1)
          && |w.readElement(s, n).value.0| == n)
    && (forall s: bytes, n: nat :: w.readPair(s, n).Ok? ==>
          && s == w.putPair(w.readPair(s, n).value.0.0, w.readPair(s, n).value.0.1, w.readPair(s, n).value.1)
          && |w.readPair(s, n).value.0.0| == n)
    && (forall s: bytes, k: u64, l: TextLimit :: w.readText(s, k, l).Ok? ==>
          && s == w.putText(k, w.readText(s, k, l).value.0, w.readText(s, k, l).value.1)
          && WithinLimit(w.rules, w.readText(s, k, l).value.0, l))
    && (forall s: bytes, k: u64, n: nat :: w.readOptionalBytes(s, k, n).Ok? ==>
          && s == w.putOptionalBytes(k, w.readOptionalBytes(s, k, n).value.0, w.readOptionalBytes(s, k, n).value.1)
          && OptionLength(w.readOptionalBytes(s, k, n).value.0, n))
    && (forall s: bytes, k: u64, l: TextLimit :: w.readOptionalText(s, k, l).Ok? ==>
          && s == w.putOptionalText(k, w.readOptionalText(s, k, l).value.0, w.readOptionalText(s, k, l).value.1)
          && OptionWithinLimit(w.rules, w.readOptionalText(s, k, l).value.0, l))
  }

  // Readers read back everything the writers write.

  ghost predicate CompleteScalars(w: Wire) {
    && (forall n: u64, t: bytes :: w.readMap(w.putMap(n, t)) == Ok((n, t)))
    && (forall k: u64, t: bytes :: w.readKey(w.putKey(k, t), k) == Ok(t))
    && (forall k: u64, n: u64, t: bytes :: w.readUint(w.putUint(k, n, t), k) == Ok((n, t)))
    && (forall k: u64, v: bool, t: bytes :: w.readFlag(w.putFlag(k, v, t), k) == Ok((v, t)))
    && (forall k: u64, n: u64, t: bytes :: w.readArray(w.putArray(k, n, t), k) == Ok((n, t)))
  }

  ghost predicate CompleteStrings(w: Wire) {
    && (forall k: u64, b: bytes, t: bytes :: |b| <= U64_MAX ==> w.readBytes(w.putBytes(k, b, t), k) == Ok((b, t)))
    && (forall b: bytes, t: bytes :: |b| <= U64_MAX ==> w.readElement(w.putElement(b, t), |b|) == Ok((b, t)))
    && (forall b: bytes, v: u64, t: bytes :: |b| <= U64_MAX ==> w.readPair(w.putPair(b, v, t), |b|) == Ok(((b, v), t)))
    && (forall k: u64, b: bytes, t: bytes, l: TextLimit {:trigger w.readText(w.putText(k, b, t), k, l)} ::
          WithinLimit(w.rules, b, l) && l.maxBytes <= U64_MAX ==> w.readText(w.putText(k, b, t), k, l) == Ok((b, t)))
  }

  ghost predicate CompleteOptions(w: Wire) {
    && (forall k: u64, v: Option<bytes>, t: bytes, n: nat
          {:trigger w.readOptionalBytes(w.putOptionalBytes(k, v, t), k, n)} ::
          OptionLength(v, n) && n <= U64_MAX ==> w.readOptionalBytes(w.putOptionalBytes(k, v, t), k, n) == Ok((v, t)))
    && (forall k: u64, v: Option<bytes>, t: bytes, l: TextLimit
          {:trigger w.readOptionalText(w.putOptionalText(k, v, t), k, l)} ::
          OptionWithinLimit(w.rules, v, l) && l.maxBytes <= U64_MAX ==>
            w.readOptionalText(w.putOptionalText(k, v, t), k, l) == Ok((v, t)))
  }

  ghost predicate Complete(w: Wire) {
    CompleteScalars(w) && CompleteStrings(w) && CompleteOptions(w)
  }

  /** `read_key`: the next map key, which must be the expected one. */
  function ReadKey(s: bytes, expected: u64): (r: Result<bytes>)
    ensures r.Ok? ==> s == PutUint(expected, r.value)
  {
    var (n, t) :- ReadUint(s);
    if n == expected then Ok(t) else Err(MalformedInput)
  }

  lemma KeyReadsBack(k: u64, t: bytes)
    ensures ReadKey(PutUint(k, t), k) == Ok(t)
  {
    ReadPutHead(UINT, k, t);
  }

  /** A keyed value: the key, then whatever `read` reads. */
  function Keyed<T>(s: bytes, k: u64, read: bytes -> Parsed<T>): Parsed<T> {
    var t :- ReadKey(s, k);
    read(t)
  }

  function CborWire(rules: TextRules): Wire {
    Wire(rules,
         (n: u64, t: bytes) => PutMap(n, t),
         (s: bytes) => ReadMap(s),
         (k: u64, t: bytes) => PutUint(k, t),
         (s: bytes, k: u64) => ReadKey(s, k),
         (k: u64, n: u64, t: bytes) => PutUint(k, PutUint(n, t)),
         (s: bytes, k: u64) => Keyed(s, k, ReadUint),
         (k: u64, b: bytes, t: bytes) => PutUint(k, PutByteString(b, t)),
         (s: bytes, k: u64) => Keyed(s, k, ReadByteString),
         (k: u64, b: bytes, t: bytes) => PutUint(k, PutText(b, t)),
         (s: bytes, k: u64, l: TextLimit) => Keyed(s, k, t => ReadText(rules, t, l)),
         (k: u64, v: bool, t: bytes) => PutUint(k, PutFlag(v, t)),
         (s: bytes, k: u64) => Keyed(s, k, ReadFlag),
         (k: u64, v: Option<bytes>, t: bytes) => PutUint(k, PutOptionalBytes(v, t)),
         (s: bytes, k: u64, n: nat) => Keyed(s, k, t => ReadOptionalExact(t, n)),
         (k: u64, v: Option<bytes>, t: bytes) => PutUint(k, PutOptionalText(v, t)),
         (s: bytes, k: u64, l: TextLimit) => Keyed(s, k, t => ReadOptionalText(rules, t, l)),
         (k: u64, n: nat, t: bytes) => PutUint(k, PutArray(n, t)),
         (s: bytes, k: u64) => Keyed(s, k, ReadArray),
         (b: bytes, t: bytes) => PutByteString(b, t),
         (s: bytes, n: nat) => ReadExactString(s, n),
         (b: bytes, v: u64, t: bytes) => PutArray(2, PutByteString(b, PutUint(v, t))),
         (s: bytes, n: nat) => ReadBytesAndUint(s, n))
  }

  /** A two-element array: a byte string of the given length, then an integer. */
  function ReadBytesAndUint(s: bytes, n: nat): Parsed<(bytes, u64)> {
    var (length, s) :- ReadArray(s);
    var _ :- Check(length == 2, MalformedInput);
    var (b, s) :- ReadExactString(s, n);
    var (v, s) :- ReadUint(s);
    Ok(((b, v), s))
  }

  lemma PairReadsBack(b: bytes, v: u64, t: bytes)
    requires |b| <= U64_MAX
    ensures ReadBytesAndUint(PutArray(2, PutByteString(b, PutUint(v, t))), |b|) == Ok(((b, v), t))
  {
    ReadPutHead(UINT, v, t);
    ByteStringReadsBack(b, PutUint(v, t));
    ReadPutHead(ARRAY, 2, PutByteString(b, PutUint(v, t)));
  }

  lemma CborWireSound(rules: TextRules)
    ensures Sound(CborWire(rules))
  {
  }

  lemma CborWireCompleteScalars(rules: TextRules)
    ensures CompleteScalars(CborWire(rules))
  {
    forall k: u64, t: bytes ensures ReadKey(PutUint(k, t), k) == Ok(t) { KeyReadsBack(k, t); }
    UintsReadBack();
    ContainersReadBack();
    FlagsReadBack();
  }

  lemma CborWireCompleteStrings(rules: TextRules)
    ensures CompleteStrings(CborWire(rules))
  {
    forall k: u64, t: bytes ensures ReadKey(PutUint(k, t), k) == Ok(t) { KeyReadsBack(k, t); }
    forall b: bytes, t: bytes | |b| <= U64_MAX
      ensures ReadByteString(PutByteString(b, t)) == Ok((b, t))
      ensures ReadExactString(PutByteString(b, t), |b|) == Ok((b, t))
    {
      ByteStringReadsBack(b, t);
    }
    forall b: bytes, v: u64, t: bytes | |b| <= U64_MAX
      ensures ReadBytesAndUint(PutArray(2, PutByteString(b, PutUint(v, t))), |b|) == Ok(((b, v), t))
    {
      PairReadsBack(b, v, t);
    }
    forall b: bytes, t: bytes, l: TextLimit | WithinLimit(rules, b, l) && l.maxBytes <= U64_MAX
      ensures ReadText(rules, PutText(b, t), l) == Ok((b, t))
    {
      TextReadsBack(rules, b, t, l);
    }
  }

  lemma CborWireCompleteOptions(rules: TextRules)
    ensures CompleteOptions(CborWire(rules))
  {
    forall k: u64, t: bytes ensures ReadKey(PutUint(k, t), k) == Ok(t) { KeyReadsBack(k, t); }
    forall v: Option<bytes>, t: bytes, n: nat | OptionLength(v, n) && n <= U64_MAX
      ensures ReadOptionalExact(PutOptionalBytes(v, t), n) == Ok((v, t))
    {
      OptionalBytesReadBack(v, n, t);
    }
    forall v: Option<bytes>, t: bytes, l: TextLimit | OptionWithinLimit(rules, v, l) && l.maxBytes <= U64_MAX
      ensures ReadOptionalText(rules, PutOptionalText(v, t), l) == Ok((v, t))
    {
      OptionalTextReadsBack(rules, v, l, t);
    }
  }

  lemma CborWireComplete(rules: TextRules)
    ensures Complete(CborWire(rules))
  {
    CborWireCompleteScalars(rules);
    CborWireCompleteStrings(rules);
    CborWireCompleteOptions(rules);
  }

  /** Every item costs its payload and at most nine bytes a head, and a map head is not free. */
  ghost predicate Compact(w: Wire) {
    && (forall n: u64, t: bytes :: |t| < |w.putMap(n, t)| <= |t| + 9)
    && (forall k: u64, t: bytes :: |w.putKey(k, t)| <= |t| + 9)
    && (forall k: u64, n: u64, t: bytes :: |w.putUint(k, n, t)| <= |t| + 18)
    && (forall k: u64, b: bytes, t: bytes :: |w.putBytes(k, b, t)| <= |t| + |b| + 18)
    && (forall k: u64, b: bytes, t: bytes :: |w.putText(k, b, t)| <= |t| + |b| + 18)
    && (forall k: u64, v: Option<bytes>, t: bytes ::
          |w.putOptionalBytes(k, v, t)| <= |t| + (if v.Some? then |v.value| else 0) + 18)
    && (forall k: u64, n: nat, t: bytes :: |w.putArray(k, n, t)| <= |t| + 18)
    && (forall b: bytes, t: bytes :: |w.putElement(b, t)| <= |t| + |b| + 9)
    && (forall b: bytes, v: u64, t: bytes :: |w.putPair(b, v, t)| <= |t| + |b| + 27)
  }

  lemma CborWireCompact(rules: TextRules)
    ensures Compact(CborWire(rules))
  {
    forall v: Option<bytes>, t: bytes
      ensures |PutOptionalBytes(v, t)| <= |t| + (if v.Some? then |v.value| else 0) + 9
    {
      match v
      case None =>
      case Some(b) =>
    }
  }

  // The composite readers of application.rs that need nothing but the items

  function ReadExactMap(w: Wire, s: bytes, expected: u64): Result<bytes> {
    var (n, t) :- w.readMap(s);
    if n == expected then Ok(t) else Err(MalformedInput)
  }

  /** `read_exact_bytes` under a key. */
  function ReadExact(w: Wire, s: bytes, k: u64, n: nat): (r: Parsed<bytes>)
    ensures r.Ok? ==> |r.value.0| == n
  {
    var (b, t) :- w.readBytes(s, k);
    if |b| == n then Ok((b, t)) else Err(MalformedInput)
  }

  /** `read_nullable_id` under a key, at the length the caller names. */
  function ReadOptionalExactly(w: Wire, s: bytes, k: u64, n: nat): (r: Parsed<Option<bytes>>)
    ensures r.Ok? ==> OptionLength(r.value.0, n)
  {
    var (v, t) :- w.readOptionalBytes(s, k, n);
    if OptionLength(v, n) then Ok((v, t)) else Err(MalformedInput)
  }

  // Runs of identifiers

  function PutId(w: Wire): (Bytes16, bytes) -> bytes {
    (id: Bytes16, t: bytes) => w.putElement(id, t)
  }

  function ReadOneId(w: Wire, s: bytes): Parsed<Bytes16> {
    var (id, t) :- w.readElement(s, 16);
    if |id| == 16 then Ok((id, t)) else Err(MalformedInput)
  }

  function ReadId(w: Wire): bytes -> Parsed<Bytes16> {
    (s: bytes) => ReadOneId(w, s)
  }

  function PutIds(w: Wire, ids: seq<Bytes16>, t: bytes): bytes {
    PutList(PutId(w), ids, t)
  }

  function ReadIds(w: Wire, s: bytes, n: nat): (r: Parsed<seq<Bytes16>>)
    ensures r.Ok? ==> |r.value.0| == n
  {
    ReadList(ReadId(w), s, n)
  }

  lemma IdsSound(w: Wire, s: bytes, n: nat)
    requires Sound(w) && ReadIds(w, s, n).Ok?
    ensures s == PutIds(w, ReadIds(w, s, n).value.0, ReadIds(w, s, n).value.1)
  {
    ListSound(PutId(w), ReadId(w), (id: Bytes16) => true, s, n);
  }

  lemma IdsComplete(w: Wire, ids: seq<Bytes16>, t: bytes)
    requires Complete(w)
    ensures ReadIds(w, PutIds(w, ids, t), |ids|) == Ok((ids, t))
  {
    ListComplete(PutId(w), ReadId(w), (id: Bytes16) => true, ids, t);
  }
}
