/** `validate_unknown_body` as the source runs it: one decoder that moves forward and one item counter
    shared by the whole recursion, with a loop for each array and map. Each method is proved to
    compute the function of the same step in `UnknownBody`, so the exact language accepted there is
    the language accepted here. */
module BodyScanner {
  import opened Bytes
  import opened Texts
  import opened UnknownBody

  class Scanner {
    const it: Items
    /** The bytes the decoder has not read. */
    var rest: bytes
    var items: nat

    constructor (it: Items, input: bytes)
      ensures this.it == it && rest == input && items == 0
    {
      this.it, rest, items := it, input, 0;
    }

    /** What a step of the scan must do, given what the function says of the state before it. */
    predicate Follows(expected: Parsed<nat>, r: Result<()>)
      reads this
    {
      match expected
      case Err(e) => r == Err(e)
      case Ok((n, t)) => r == Ok(()) && items == n && rest == t
    }

    /** `validate_unknown_body`. */
    method Body() returns (r: Result<()>)
      requires items == 0
      modifies this
      ensures match ValidateBody(it, old(rest))
        case Err(e) => r == Err(e)
        case Ok(t) => r == Ok(()) && rest == t
    {
      if it.tag(rest) != MapTag {
        return Err(MalformedInput);
      }
      r := Value(2);
    }

    /** `validate_unknown_value`. */
    method Value(depth: nat) returns (r: Result<()>)
      modifies this
      ensures Follows(Validate(it, old(rest), depth, old(items)), r)
      decreases MAX_DEPTH + 1 - depth, 1
    {
      if depth > MAX_DEPTH {
        return Err(InputTooLarge);
      }
      items := items + 1;
      if items > MAX_ITEMS {
        return Err(InputTooLarge);
      }
      var tag := it.tag(rest);
      if tag == ArrayTag {
        var length :- Head(it.readArray(rest));
        if length > U32_MAX || length > MAX_ITEMS - items {
          return Err(InputTooLarge);
        }
        r := Elements(length, depth + 1);
      } else if tag == MapTag {
        var length :- Head(it.readMap(rest));
        if length > MAX_MAP_ENTRIES {
          return Err(InputTooLarge);
        }
        r := Entries(length, depth + 1);
      } else {
        r := Leaf(tag);
      }
    }

    /** Moving past a head. */
    method Head(read: Parsed<u64>) returns (r: Result<u64>)
      modifies this`rest
      ensures read.Err? ==> r == Err(read.error)
      ensures read.Ok? ==> r == Ok(read.value.0) && rest == read.value.1
    {
      if read.Err? {
        return Err(read.error);
      }
      rest := read.value.1;
      return Ok(read.value.0);
    }

    /** Moving past an item without children. */
    method Leaf(tag: Tag) returns (r: Result<()>)
      requires tag == it.tag(rest) && tag != ArrayTag && tag != MapTag
      modifies this`rest
      ensures match SkipLeaf(it, tag, old(rest))
        case Err(e) => r == Err(e)
        case Ok(t) => r == Ok(()) && rest == t
    {
      var skipped := SkipLeaf(it, tag, rest);
      if skipped.Err? {
        return Err(skipped.error);
      }
      rest := skipped.value;
      return Ok(());
    }

    /** The loop over an array's items. */
    method Elements(n: nat, depth: nat) returns (r: Result<()>)
      requires depth <= MAX_DEPTH + 1 && items <= MAX_ITEMS
      modifies this
      ensures Follows(ValidateItems(it, old(rest), n, depth, old(items)), r)
      decreases MAX_DEPTH + 1 - depth, 2
    {
      var i := 0;
      while i < n
        invariant i <= n && items <= MAX_ITEMS
        invariant ValidateItems(it, rest, n - i, depth, items) == ValidateItems(it, old(rest), n, depth, old(items))
      {
        var _ :- Value(depth);
        i := i + 1;
      }
      return Ok(());
    }

    /** The loop over a map's entries. */
    method Entries(n: nat, depth: nat) returns (r: Result<()>)
      requires depth <= MAX_DEPTH + 1 && items <= MAX_ITEMS
      modifies this
      ensures Follows(ValidateEntries(it, old(rest), n, -1, depth, old(items)), r)
      decreases MAX_DEPTH + 1 - depth, 2
    {
      var previous: int := -1;
      var i := 0;
      while i < n
        invariant i <= n && items <= MAX_ITEMS
        invariant ValidateEntries(it, rest, n - i, previous, depth, items)
          == ValidateEntries(it, old(rest), n, -1, depth, old(items))
      {
        items := items + 1;
        if items > MAX_ITEMS {
          return Err(InputTooLarge);
        }
        var key :- Head(it.readUint(rest));
        if key <= previous {
          return Err(MalformedInput);
        }
        previous := key;
        var _ :- Value(depth);
        i := i + 1;
      }
      return Ok(());
    }
  }

  /** The bytes after an item without children. */
  function SkipLeaf(it: Items, tag: Tag, s: bytes): Result<bytes> {
    match tag
    case UintTag =>
      var (_, t) :- it.readUint(s);
      Ok(t)
    case BlobTag =>
      var (_, t) :- it.readBlob(s);
      Ok(t)
    case TextTag =>
      var (_, t) :- it.readText(s);
      Ok(t)
    case FlagTag =>
      var (_, t) :- it.readFlag(s);
      Ok(t)
    case NullTag => it.readNull(s)
    case _ => Err(MalformedInput)
  }

  /** The running validator accepts a span exactly when it is the deterministic encoding of a map
      within the limits, and leaves exactly what follows it. */
  method Scan(rules: TextRules, input: bytes) returns (r: Result<()>, rest: bytes)
    ensures r.Ok? ==> exists i :: IsBody(rules, input, i, rest)
    ensures r.Err? ==> forall i, t :: !IsBody(rules, input, i, t)
  {
    var scanner := new Scanner(CborItems(rules), input);
    r := scanner.Body();
    rest := scanner.rest;
    if r.Ok? {
      BodyAcceptedExactly(rules, input, rest);
    } else {
      forall i, t
        ensures !IsBody(rules, input, i, t)
      {
        BodyAcceptedExactly(rules, input, t);
      }
    }
  }
}
