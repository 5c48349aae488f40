/** The structural validator for bodies of unknown kinds (application.rs).

    `Item` is the language the validator is meant to accept: the data items of RFC 8949 without
    floats, tags and negative integers, maps keyed by strictly ascending unsigned integers.
    `PutItem` is its core deterministic encoding (section 4.2.1 of RFC 8949). The theorems say
    that the validator accepts a span exactly when it encodes an item within the limits. */
module UnknownBody {
  import opened Bytes
  import opened Texts
  import opened Cbor

  const MAX_DEPTH: nat := 16
  const MAX_ITEMS: nat := 4096
  const MAX_MAP_ENTRIES: nat := 64
  const ITEM_TEXT_LIMIT: TextLimit := TextLimit(MAX_IO_BYTES, MAX_IO_BYTES, false)

  datatype Item =
    | UInt(n: u64)
    | Blob(b: bytes)
    | Text(b: bytes)
    | Array(items: List)
    | Map(entries: Entries)
    | Flag(v: bool)
    | Null

  datatype List = Nil | Cons(head: Item, tail: List)

  datatype Entries = End | Entry(key: u64, value: Item, rest: Entries)

  function Length(l: List): nat {
    match l
    case Nil => 0
    case Cons(_, tail) => 1 + Length(tail)
  }

  function Size(es: Entries): nat {
    match es
    case End => 0
    case Entry(_, _, rest) => 1 + Size(rest)
  }

  /** What the first unread byte announces. */
  datatype Tag = UintTag | BlobTag | TextTag | ArrayTag | MapTag | FlagTag | NullTag | OtherTag | EndTag

  function TagOf(s: bytes): Tag {
    if s == [] then EndTag
    else if s[0] / 32 == UINT then UintTag
    else if s[0] / 32 == BYTE_STRING then BlobTag
    else if s[0] / 32 == TEXT_STRING then TextTag
    else if s[0] / 32 == ARRAY then ArrayTag
    else if s[0] / 32 == MAP then MapTag
    else if s[0] == FALSE_BYTE || s[0] == TRUE_BYTE then FlagTag
    else if s[0] == NULL_BYTE then NullTag
    else OtherTag
  }

  /** The item readers and writers the validator stands on; `CborItems` is the only instance. */
  datatype Items = Items(
    rules: TextRules,
    tag: bytes -> Tag,
    putUint: (u64, bytes) -> bytes,
    readUint: bytes -> Parsed<u64>,
    putBlob: (bytes, bytes) -> bytes,
    readBlob: bytes -> Parsed<bytes>,
    putText: (bytes, bytes) -> bytes,
    readText: bytes -> Parsed<bytes>,
    putArray: (nat, bytes) -> bytes,
    readArray: bytes -> Parsed<u64>,
    putMap: (nat, bytes) -> bytes,
    readMap: bytes -> Parsed<u64>,
    putFlag: (bool, bytes) -> bytes,
    readFlag: bytes -> Parsed<bool>,
    putNull: bytes -> bytes,
    readNull: bytes -> Result<bytes>)

  ghost predicate Sound(it: Items) {
    && (forall s: bytes :: it.readUint(s).Ok? ==> s == it.putUint(it.readUint(s).value.0, it.readUint(s).value.1))
    && (forall s: bytes :: it.readBlob(s).Ok? ==>
          s == it.putBlob(it.readBlob(s).value.0, it.readBlob(s).value.1) && |it.readBlob(s).value.0| <= U64_MAX)
    && (forall s: bytes :: it.readText(s).Ok? ==>
          && s == it.putText(it.readText(s).value.0, it.readText(s).value.1)
          && WithinLimit(it.rules, it.readText(s).value.0, ITEM_TEXT_LIMIT))
    && (forall s: bytes :: it.readArray(s).Ok? ==> s == it.putArray(it.readArray(s).value.0, it.readArray(s).value.1))
    && (forall s: bytes :: it.readMap(s).Ok? ==> s == it.putMap(it.readMap(s).value.0, it.readMap(s).value.1))
    && (forall s: bytes :: it.readFlag(s).Ok? ==> s == it.putFlag(it.readFlag(s).value.0, it.readFlag(s).value.1))
    && (forall s: bytes :: it.readNull(s).Ok? ==> s == it.putNull(it.readNull(s).value))
  }

  ghost predicate CompleteLeaves(it: Items) {
    && (forall n: u64, t: bytes {:trigger it.putUint(n, t)} ::
          it.tag(it.putUint(n, t)) == UintTag && it.readUint(it.putUint(n, t)) == Ok((n, t)))
    && (forall v: bool, t: bytes {:trigger it.putFlag(v, t)} ::
          it.tag(it.putFlag(v, t)) == FlagTag && it.readFlag(it.putFlag(v, t)) == Ok((v, t)))
    && (forall t: bytes {:trigger it.putNull(t)} ::
          it.tag(it.putNull(t)) == NullTag && it.readNull(it.putNull(t)) == Ok(t))
  }

  ghost predicate CompleteStrings(it: Items) {
    && (forall b: bytes, t: bytes {:trigger it.putBlob(b, t)} ::
          it.tag(it.putBlob(b, t)) == BlobTag && (|b| <= U64_MAX ==> it.readBlob(it.putBlob(b, t)) == Ok((b, t))))
    && (forall b: bytes, t: bytes {:trigger it.putText(b, t)} ::
          && it.tag(it.putText(b, t)) == TextTag
          && (WithinLimit(it.rules, b, ITEM_TEXT_LIMIT) ==> it.readText(it.putText(b, t)) == Ok((b, t))))
  }

  ghost predicate CompleteContainers(it: Items) {
    && (forall n: nat, t: bytes {:trigger it.putArray(n, t)} ::
          it.tag(it.putArray(n, t)) == ArrayTag && (n <= U64_MAX ==> it.readArray(it.putArray(n, t)) == Ok((n, t))))
    && (forall n: nat, t: bytes {:trigger it.putMap(n, t)} ::
          it.tag(it.putMap(n, t)) == MapTag && (n <= U64_MAX ==> it.readMap(it.putMap(n, t)) == Ok((n, t))))
  }

  ghost predicate Complete(it: Items) {
    CompleteLeaves(it) && CompleteStrings(it) && CompleteContainers(it)
  }

  // The deterministic encoding

  function PutItem(it: Items, i: Item, t: bytes): bytes {
    match i
    case UInt(n) => it.putUint(n, t)
    case Blob(b) => it.putBlob(b, t)
    case Text(b) => it.putText(b, t)
    case Array(items) => it.putArray(Length(items), PutItems(it, items, t))
    case Map(entries) => it.putMap(Size(entries), PutEntries(it, entries, t))
    case Flag(v) => it.putFlag(v, t)
    case Null => it.putNull(t)
  }

  function PutItems(it: Items, l: List, t: bytes): bytes {
    match l
    case Nil => t
    case Cons(head, tail) => PutItem(it, head, PutItems(it, tail, t))
  }

  function PutEntries(it: Items, es: Entries, t: bytes): bytes {
    match es
    case End => t
    case Entry(key, value, rest) => it.putUint(key, PutItem(it, value, PutEntries(it, rest, t)))
  }

  // The limits: nesting depth, number of items (map keys are items), entries of one map

  function Count(i: Item): nat {
    match i
    case Array(items) => 1 + CountItems(items)
    case Map(entries) => 1 + CountEntries(entries)
    case _ => 1
  }

  function CountItems(l: List): nat {
    match l
    case Nil => 0
    case Cons(head, tail) => Count(head) + CountItems(tail)
  }

  function CountEntries(es: Entries): nat {
    match es
    case End => 0
    case Entry(_, value, rest) => 1 + Count(value) + CountEntries(rest)
  }

  /** The item nests no deeper than the limit when it sits at the given depth, its maps are small
      and strictly ascending, and its texts are UTF-8 of bounded length. */
  predicate Admissible(rules: TextRules, i: Item, depth: nat) {
    && depth <= MAX_DEPTH
    && match i {
         case Blob(b) => |b| <= U64_MAX
         case Text(b) => WithinLimit(rules, b, ITEM_TEXT_LIMIT)
         case Array(items) => AdmissibleItems(rules, items, depth + 1)
         case Map(entries) => Size(entries) <= MAX_MAP_ENTRIES && AdmissibleEntries(rules, entries, -1, depth + 1)
         case _ => true
       }
  }

  predicate AdmissibleItems(rules: TextRules, l: List, depth: nat) {
    match l
    case Nil => true
    case Cons(head, tail) => Admissible(rules, head, depth) && AdmissibleItems(rules, tail, depth)
  }

  predicate AdmissibleEntries(rules: TextRules, es: Entries, previous: int, depth: nat) {
    match es
    case End => true
    case Entry(key, value, rest) =>
      previous < key && Admissible(rules, value, depth) && AdmissibleEntries(rules, rest, key, depth)
  }

  // The validator. `count` is the source's `item_count`, returned with the unread bytes.

  function Validate(it: Items, s: bytes, depth: nat, count: nat): (r: Parsed<nat>)
    ensures r.Ok? ==> count < r.value.0 <= MAX_ITEMS
    decreases MAX_DEPTH + 1 - depth, 0, 2
  {
    if depth > MAX_DEPTH then Err(InputTooLarge)
    else if count + 1 > MAX_ITEMS then Err(InputTooLarge)
    else
      match it.tag(s)
      case UintTag =>
        var (_, t) :- it.readUint(s);
        Ok((count + 1, t))
      case BlobTag =>
        var (_, t) :- it.readBlob(s);
        Ok((count + 1, t))
      case TextTag =>
        var (_, t) :- it.readText(s);
        Ok((count + 1, t))
      case ArrayTag =>
        var (n, t) :- it.readArray(s);
        // The early length check: the array claims more items than the budget has left.
        if n > U32_MAX || n > MAX_ITEMS - (count + 1) then Err(InputTooLarge)
        else ValidateItems(it, t, n, depth + 1, count + 1)
      case MapTag =>
        var (n, t) :- it.readMap(s);
        if n > MAX_MAP_ENTRIES then Err(InputTooLarge)
        else ValidateEntries(it, t, n, -1, depth + 1, count + 1)
      case FlagTag =>
        var (_, t) :- it.readFlag(s);
        Ok((count + 1, t))
      case NullTag =>
        var t :- it.readNull(s);
        Ok((count + 1, t))
      case OtherTag => Err(MalformedInput)
      case EndTag => Err(MalformedInput)
  }

  function ValidateItems(it: Items, s: bytes, n: nat, depth: nat, count: nat): (r: Parsed<nat>)
    requires depth <= MAX_DEPTH + 1 && count <= MAX_ITEMS
    ensures r.Ok? ==> count <= r.value.0 <= MAX_ITEMS
    decreases MAX_DEPTH + 1 - depth, n, 3
  {
    if n == 0 then Ok((count, s))
    else
      var (count', t) :- Validate(it, s, depth, count);
      ValidateItems(it, t, n - 1, depth, count')
  }

  function ValidateEntries(it: Items, s: bytes, n: nat, previous: int, depth: nat, count: nat): (r: Parsed<nat>)
    requires depth <= MAX_DEPTH + 1 && count <= MAX_ITEMS
    ensures r.Ok? ==> count <= r.value.0 <= MAX_ITEMS
    decreases MAX_DEPTH + 1 - depth, n, 3
  {
    if n == 0 then Ok((count, s))
    else if count + 1 > MAX_ITEMS then Err(InputTooLarge)
    else
      var (key, s1) :- it.readUint(s);
      if key <= previous then Err(MalformedInput)
      else
        var (count', t) :- Validate(it, s1, depth, count + 1);
        ValidateEntries(it, t, n - 1, key, depth, count')
  }

  /** `validate_unknown_body`: a map at depth 2. */
  function ValidateBody(it: Items, s: bytes): Result<bytes> {
    if it.tag(s) != MapTag then Err(MalformedInput)
    else
      var (_, t) :- Validate(it, s, 2, 0);
      Ok(t)
  }

  // Soundness: what is accepted is the encoding of an admissible item

  lemma {:induction false} ValidateSound(it: Items, s: bytes, depth: nat, count: nat) returns (i: Item)
    requires Sound(it) && Validate(it, s, depth, count).Ok?
    ensures Validate(it, s, depth, count).value.0 == count + Count(i)
    ensures s == PutItem(it, i, Validate(it, s, depth, count).value.1) && Admissible(it.rules, i, depth)
    decreases MAX_DEPTH + 1 - depth, 0, 2
  {
    match it.tag(s)
    case ArrayTag =>
      var (n, t) := it.readArray(s).value;
      var l := ValidateItemsSound(it, t, n, depth + 1, count + 1);
      i := Array(l);
    case MapTag =>
      var (n, t) := it.readMap(s).value;
      var es := ValidateEntriesSound(it, t, n, -1, depth + 1, count + 1);
      i := Map(es);
    case _ => i := ValidateLeafSound(it, s, depth, count);
  }

  /** Neither an array nor a map. */
  lemma ValidateLeafSound(it: Items, s: bytes, depth: nat, count: nat) returns (i: Item)
    requires Sound(it) && Validate(it, s, depth, count).Ok? && !it.tag(s).ArrayTag? && !it.tag(s).MapTag?
    ensures Validate(it, s, depth, count).value.0 == count + Count(i)
    ensures s == PutItem(it, i, Validate(it, s, depth, count).value.1) && Admissible(it.rules, i, depth)
  {
    match it.tag(s)
    case UintTag => i := UInt(it.readUint(s).value.0);
    case BlobTag => i := Blob(it.readBlob(s).value.0);
    case TextTag => i := Text(it.readText(s).value.0);
    case FlagTag => i := Flag(it.readFlag(s).value.0);
    case NullTag => i := Null;
  }

  lemma {:induction false} ValidateItemsSound(it: Items, s: bytes, n: nat, depth: nat, count: nat) returns (l: List)
    requires Sound(it) && depth <= MAX_DEPTH + 1 && count <= MAX_ITEMS
    requires ValidateItems(it, s, n, depth, count).Ok?
    ensures ValidateItems(it, s, n, depth, count).value.0 == count + CountItems(l)
    ensures s == PutItems(it, l, ValidateItems(it, s, n, depth, count).value.1)
    ensures AdmissibleItems(it.rules, l, depth) && Length(l) == n
    decreases MAX_DEPTH + 1 - depth, n, 3
  {
    if n == 0 {
      l := Nil;
    } else {
      var head := ValidateSound(it, s, depth, count);
      var (count', t) := Validate(it, s, depth, count).value;
      var tail := ValidateItemsSound(it, t, n - 1, depth, count');
      l := Cons(head, tail);
    }
  }

  lemma {:induction false} ValidateEntriesSound(it: Items, s: bytes, n: nat, previous: int, depth: nat, count: nat)
    returns (es: Entries)
    requires Sound(it) && depth <= MAX_DEPTH + 1 && count <= MAX_ITEMS
    requires ValidateEntries(it, s, n, previous, depth, count).Ok?
    ensures ValidateEntries(it, s, n, previous, depth, count).value.0 == count + CountEntries(es)
    ensures s == PutEntries(it, es, ValidateEntries(it, s, n, previous, depth, count).value.1)
    ensures AdmissibleEntries(it.rules, es, previous, depth) && Size(es) == n
    decreases MAX_DEPTH + 1 - depth, n, 3
  {
    if n == 0 {
      es := End;
    } else {
      var (key, s1) := it.readUint(s).value;
      var value := ValidateSound(it, s1, depth, count + 1);
      var (count', t) := Validate(it, s1, depth, count + 1).value;
      var rest := ValidateEntriesSound(it, t, n - 1, key, depth, count');
      es := Entry(key, value, rest);
    }
  }

  // Completeness: every admissible item within the item budget is accepted

  /** Why the early length check refuses nothing that fits: every element counts for one item. */
  lemma CountAtLeastLength(l: List)
    ensures Length(l) <= CountItems(l)
  {
  }

  lemma ArrayStep(it: Items, n: nat, s: bytes, depth: nat, count: nat)
    requires CompleteContainers(it) && depth <= MAX_DEPTH && count + 1 + n <= MAX_ITEMS
    ensures Validate(it, it.putArray(n, s), depth, count) == ValidateItems(it, s, n, depth + 1, count + 1)
  {
  }

  lemma MapStep(it: Items, n: nat, s: bytes, depth: nat, count: nat)
    requires CompleteContainers(it) && depth <= MAX_DEPTH && count + 1 <= MAX_ITEMS && n <= MAX_MAP_ENTRIES
    ensures Validate(it, it.putMap(n, s), depth, count) == ValidateEntries(it, s, n, -1, depth + 1, count + 1)
  {
  }

  lemma EntryStep(it: Items, key: u64, n: nat, s: bytes, t: bytes, previous: int, depth: nat, count: nat, count': nat)
    requires CompleteLeaves(it) && depth <= MAX_DEPTH + 1 && count + 1 <= MAX_ITEMS && previous < key
    requires Validate(it, s, depth, count + 1) == Ok((count', t))
    ensures ValidateEntries(it, it.putUint(key, s), n + 1, previous, depth, count)
      == ValidateEntries(it, t, n, key, depth, count')
  {
  }

  lemma LeafComplete(it: Items, i: Item, t: bytes, depth: nat, count: nat)
    requires CompleteLeaves(it) && CompleteStrings(it) && !i.Array? && !i.Map?
    requires Admissible(it.rules, i, depth) && count + 1 <= MAX_ITEMS
    ensures Validate(it, PutItem(it, i, t), depth, count) == Ok((count + 1, t))
  {
  }

  lemma {:induction false} ValidateComplete(it: Items, i: Item, t: bytes, depth: nat, count: nat)
    requires Complete(it) && Admissible(it.rules, i, depth) && count + Count(i) <= MAX_ITEMS
    ensures Validate(it, PutItem(it, i, t), depth, count) == Ok((count + Count(i), t))
    decreases i, 0
  {
    match i
    case Array(items) => ArrayComplete(it, items, t, depth, count);
    case Map(entries) => MapComplete(it, entries, t, depth, count);
    case _ => LeafComplete(it, i, t, depth, count);
  }

  lemma {:induction false} ArrayComplete(it: Items, items: List, t: bytes, depth: nat, count: nat)
    requires Complete(it) && depth <= MAX_DEPTH
    requires AdmissibleItems(it.rules, items, depth + 1) && count + 1 + CountItems(items) <= MAX_ITEMS
    ensures Validate(it, it.putArray(Length(items), PutItems(it, items, t)), depth, count)
      == Ok((count + 1 + CountItems(items), t))
    decreases items, 1
  {
    CountAtLeastLength(items);
    ArrayStep(it, Length(items), PutItems(it, items, t), depth, count);
    ValidateItemsComplete(it, items, t, depth + 1, count + 1);
  }

  lemma {:induction false} MapComplete(it: Items, entries: Entries, t: bytes, depth: nat, count: nat)
    requires Complete(it) && depth <= MAX_DEPTH && Size(entries) <= MAX_MAP_ENTRIES
    requires AdmissibleEntries(it.rules, entries, -1, depth + 1) && count + 1 + CountEntries(entries) <= MAX_ITEMS
    ensures Validate(it, it.putMap(Size(entries), PutEntries(it, entries, t)), depth, count)
      == Ok((count + 1 + CountEntries(entries), t))
    decreases entries, 1
  {
    MapStep(it, Size(entries), PutEntries(it, entries, t), depth, count);
    ValidateEntriesComplete(it, entries, t, -1, depth + 1, count + 1);
  }

  lemma {:induction false} ValidateItemsComplete(it: Items, l: List, t: bytes, depth: nat, count: nat)
    requires Complete(it) && depth <= MAX_DEPTH + 1
    requires AdmissibleItems(it.rules, l, depth) && count + CountItems(l) <= MAX_ITEMS
    ensures ValidateItems(it, PutItems(it, l, t), Length(l), depth, count) == Ok((count + CountItems(l), t))
    decreases l, 0
  {
    match l
    case Nil =>
    case Cons(head, tail) =>
      ValidateComplete(it, head, PutItems(it, tail, t), depth, count);
      ValidateItemsComplete(it, tail, t, depth, count + Count(head));
  }

  lemma {:induction false} ValidateEntriesComplete(it: Items, es: Entries, t: bytes, previous: int, depth: nat,
                                                   count: nat)
    requires Complete(it) && depth <= MAX_DEPTH + 1
    requires AdmissibleEntries(it.rules, es, previous, depth) && count + CountEntries(es) <= MAX_ITEMS
    ensures ValidateEntries(it, PutEntries(it, es, t), Size(es), previous, depth, count)
      == Ok((count + CountEntries(es), t))
    decreases es, 0
  {
    match es
    case End =>
    case Entry(key, value, rest) =>
      var s := PutEntries(it, rest, t);
      ValidateComplete(it, value, s, depth, count + 1);
      EntryStep(it, key, Size(rest), PutItem(it, value, s), s, previous, depth, count, count + 1 + Count(value));
      ValidateEntriesComplete(it, rest, t, key, depth, count + 1 + Count(value));
  }

  // On bytes

  function CborItems(rules: TextRules): Items {
    Items(rules, (s: bytes) => TagOf(s),
          (n: u64, t: bytes) => PutUint(n, t), (s: bytes) => ReadUint(s),
          (b: bytes, t: bytes) => PutByteString(b, t), (s: bytes) => ReadByteString(s),
          (b: bytes, t: bytes) => PutText(b, t), (s: bytes) => ReadText(rules, s, ITEM_TEXT_LIMIT),
          (n: nat, t: bytes) => PutArray(n, t), (s: bytes) => ReadArray(s),
          (n: nat, t: bytes) => PutHead(MAP, n, t), (s: bytes) => ReadMap(s),
          (v: bool, t: bytes) => PutFlag(v, t), (s: bytes) => ReadFlag(s),
          (t: bytes) => PutSimple(NULL_BYTE, t), (s: bytes) => ReadNull(s))
  }

  lemma CborItemsSound(rules: TextRules)
    ensures Sound(CborItems(rules))
  {
  }

  lemma HeadTag(major: nat, n: nat, t: bytes)
    requires major < 8
    ensures PutHead(major, n, t) != [] && PutHead(major, n, t)[0] / 32 == major
  {
    assert PutHead(major, n, t)[0] == Head(major, n)[0];
  }

  lemma CborLeavesComplete(rules: TextRules)
    ensures CompleteLeaves(CborItems(rules))
  {
    forall n: u64, t: bytes
      ensures TagOf(PutUint(n, t)) == UintTag && ReadUint(PutUint(n, t)) == Ok((n, t))
    {
      HeadTag(UINT, n, t);
      ReadPutHead(UINT, n, t);
    }
    FlagsReadBack();
    forall t: bytes ensures PutSimple(NULL_BYTE, t)[1..] == t {}
  }

  lemma CborStringsComplete(rules: TextRules)
    ensures CompleteStrings(CborItems(rules))
  {
    forall b: bytes, t: bytes
      ensures TagOf(PutByteString(b, t)) == BlobTag
      ensures |b| <= U64_MAX ==> ReadByteString(PutByteString(b, t)) == Ok((b, t))
    {
      HeadTag(BYTE_STRING, |b|, b + t);
      if |b| <= U64_MAX { ByteStringReadsBack(b, t); }
    }
    forall b: bytes, t: bytes
      ensures TagOf(PutText(b, t)) == TextTag
      ensures WithinLimit(rules, b, ITEM_TEXT_LIMIT) ==> ReadText(rules, PutText(b, t), ITEM_TEXT_LIMIT) == Ok((b, t))
    {
      HeadTag(TEXT_STRING, |b|, b + t);
      if WithinLimit(rules, b, ITEM_TEXT_LIMIT) { TextReadsBack(rules, b, t, ITEM_TEXT_LIMIT); }
    }
  }

  lemma CborContainersComplete(rules: TextRules)
    ensures CompleteContainers(CborItems(rules))
  {
    forall n: nat, t: bytes
      ensures TagOf(PutArray(n, t)) == ArrayTag && TagOf(PutHead(MAP, n, t)) == MapTag
      ensures n <= U64_MAX ==> ReadArray(PutArray(n, t)) == Ok((n, t)) && ReadMap(PutHead(MAP, n, t)) == Ok((n, t))
    {
      HeadTag(ARRAY, n, t);
      HeadTag(MAP, n, t);
      if n <= U64_MAX {
        ReadPutHead(ARRAY, n, t);
        ReadPutHead(MAP, n, t);
      }
    }
  }

  lemma CborItemsComplete(rules: TextRules)
    ensures Complete(CborItems(rules))
  {
    CborLeavesComplete(rules);
    CborStringsComplete(rules);
    CborContainersComplete(rules);
  }

  /** A body the validator is meant to accept. */
  ghost predicate IsBody(rules: TextRules, s: bytes, i: Item, t: bytes) {
    i.Map? && s == PutItem(CborItems(rules), i, t) && Admissible(rules, i, 2) && Count(i) <= MAX_ITEMS
  }

  lemma AcceptedIsBody(it: Items, s: bytes, t: bytes) returns (i: Item)
    requires Sound(it) && Complete(it) && ValidateBody(it, s) == Ok(t)
    ensures i.Map? && s == PutItem(it, i, t) && Admissible(it.rules, i, 2) && Count(i) <= MAX_ITEMS
  {
    i := ValidateSound(it, s, 2, 0);
  }

  lemma BodyIsAccepted(it: Items, i: Item, t: bytes)
    requires Complete(it) && i.Map? && Admissible(it.rules, i, 2) && Count(i) <= MAX_ITEMS
    ensures ValidateBody(it, PutItem(it, i, t)) == Ok(t)
  {
    ValidateComplete(it, i, t, 2, 0);
  }

  /** The validator accepts a span exactly when it encodes an admissible map within the item
      budget, and it leaves what follows. */
  lemma BodyAcceptedExactly(rules: TextRules, s: bytes, t: bytes)
    ensures ValidateBody(CborItems(rules), s) == Ok(t) <==> exists i :: IsBody(rules, s, i, t)
  {
    CborItemsSound(rules);
    CborItemsComplete(rules);
    if ValidateBody(CborItems(rules), s) == Ok(t) {
      var i := AcceptedIsBody(CborItems(rules), s, t);
      assert IsBody(rules, s, i, t);
    }
    forall i | IsBody(rules, s, i, t)
      ensures ValidateBody(CborItems(rules), s) == Ok(t)
    {
      BodyIsAccepted(CborItems(rules), i, t);
    }
  }
}
