/** The strict reader of protocol.rs, which moves through its input, and the counted loops that fill
    a list from it. Each method is proved to do what the framing functions say of the bytes not read
    yet. */
module Reader {
  import opened Bytes
  import opened Lists
  import opened PrekeyState
  import opened PrekeyCodec
  import Digits
  import Frames
  import Framing

  class Reader {
    /** The input past the reader's position. */
    var rest: bytes

    constructor (input: bytes)
      ensures rest == input
    {
      rest := input;
    }

    /** `take`. A refusal leaves the reader where it was. */
    method Take(length: nat) returns (r: Result<bytes>)
      modifies this
      ensures match Framing.Take(old(rest), length)
        case Err(e) => r == Err(e) && rest == old(rest)
        case Ok((b, t)) => r == Ok(b) && rest == t
    {
      if length > |rest| {
        return Err(MalformedInput);
      }
      r := Ok(rest[..length]);
      rest := rest[length..];
    }

    /** `u8`, `u16`, `u32` and `u64`, by width. */
    method Int(width: nat) returns (r: Result<nat>)
      requires width == 1 || width == 2 || width == 4 || width == 8
      modifies this
      ensures match Framing.ReadInt(old(rest), width)
        case Err(e) => r == Err(e)
        case Ok((v, t)) => r == Ok(v) && rest == t
    {
      var b :- Take(width);
      return Ok(Digits.FromBe(b));
    }

    /** `boolean`. */
    method Boolean() returns (r: Result<bool>)
      modifies this
      ensures match Frames.ReadFlag(Frames.ByteFrames(), old(rest))
        case Err(e) => r == Err(e)
        case Ok((v, t)) => r == Ok(v) && rest == t
    {
      var v :- Int(1);
      if v == 0 {
        return Ok(false);
      }
      if v == 1 {
        return Ok(true);
      }
      return Err(MalformedInput);
    }

    /** `framed`. */
    method Framed() returns (r: Result<bytes>)
      modifies this
      ensures match Framing.ReadFrame(old(rest))
        case Err(e) => r == Err(e)
        case Ok((b, t)) => r == Ok(b) && rest == t
    {
      var length :- Int(4);
      if length > MAX_INPUT_BYTES {
        return Err(InputTooLarge);
      }
      r := Take(length);
    }

    /** The loop of every counted list: one element a pass, pushed on the back, the first refusal
        ends it. */
    method Many<T>(read: bytes -> Parsed<T>, count: nat) returns (r: Result<seq<T>>)
      modifies this
      ensures match ReadList(read, old(rest), count)
        case Err(e) => r == Err(e)
        case Ok((xs, t)) => r == Ok(xs) && rest == t
    {
      var xs: seq<T> := [];
      var i := 0;
      NothingRead(ReadList(read, rest, count));
      while i < count
        invariant i <= count
        invariant ReadList(read, old(rest), count) == Prepend(xs, ReadList(read, rest, count - i))
      {
        OneMoreRead(read, xs, rest, count - i);
        var next := read(rest);
        if next.Err? {
          return Err(next.error);
        }
        xs, rest := xs + [next.value.0], next.value.1;
        i := i + 1;
      }
      EndOfList(read, xs, rest);
      return Ok(xs);
    }

    /** A counted list of one-time keys, as `decode_v2` reads it. */
    method OneTimes(kind: SignedKind) returns (r: Result<seq<OneTimeKey>>)
      modifies this
      ensures match ReadOneTimes(Frames.ByteFrames(), old(rest), kind)
        case Err(e) => r == Err(e)
        case Ok((keys, t)) => r == Ok(keys) && rest == t
    {
      var count :- Int(2);
      if count > Cap(kind) {
        return Err(ResourceExhausted);
      }
      r := Many(OneTimeReader(Frames.ByteFrames(), kind), count);
    }
  }

  /** A parsed list with elements read before it put in front. */
  function Prepend<T>(front: seq<T>, rest: Parsed<seq<T>>): Parsed<seq<T>> {
    match rest
    case Err(e) => Err(e)
    case Ok((xs, t)) => Ok((front + xs, t))
  }

  lemma NothingRead<T>(rest: Parsed<seq<T>>)
    ensures Prepend([], rest) == rest
  {
    if rest.Ok? {
      assert [] + rest.value.0 == rest.value.0;
    }
  }

  /** One pass of such a loop. */
  lemma OneMoreRead<T>(read: bytes -> Parsed<T>, front: seq<T>, s: bytes, n: nat)
    requires n > 0
    ensures read(s).Err? ==> Prepend(front, ReadList(read, s, n)) == Err(read(s).error)
    ensures read(s).Ok? ==>
      Prepend(front, ReadList(read, s, n)) == Prepend(front + [read(s).value.0], ReadList(read, read(s).value.1, n - 1))
  {
    if read(s).Ok? && ReadList(read, read(s).value.1, n - 1).Ok? {
      var x, xs := read(s).value.0, ReadList(read, read(s).value.1, n - 1).value.0;
      assert front + ([x] + xs) == front + [x] + xs;
    }
  }

  lemma EndOfList<T>(read: bytes -> Parsed<T>, front: seq<T>, s: bytes)
    ensures Prepend(front, ReadList(read, s, 0)) == Ok((front, s))
  {
    assert front + [] == front;
  }
}
