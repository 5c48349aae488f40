/** Strict byte framing (protocol.rs).

    Encoders are written as `PutX(value, tail)`: the encoding of the value followed by `tail`.
    Readers take the unread bytes and return the value with the bytes left over, so
    "reads back" is `ReadX(PutX(v, t)) == Ok((v, t))` and "accepts only what was written" is
    `ReadX(s) == Ok((v, t)) ==> s == PutX(v, t)`. */
module Framing {
  import opened Bytes
  import opened Digits

  function Put(b: bytes, t: bytes): bytes {
    b + t
  }

  function Take(s: bytes, n: nat): (r: Parsed<bytes>)
    ensures r.Ok? <==> n <= |s|
    ensures r.Ok? ==> s == Put(r.value.0, r.value.1) && |r.value.0| == n
    ensures r.Err? ==> r.error == MalformedInput
  {
    if |s| < n then Err(MalformedInput) else Ok((s[..n], s[n..]))
  }

  lemma TakePut(b: bytes, t: bytes)
    ensures Take(Put(b, t), |b|) == Ok((b, t))
  {
    assert Put(b, t)[..|b|] == b && Put(b, t)[|b|..] == t;
  }

  /** A width the framing uses, and the largest value it holds. */
  predicate Fits(value: nat, width: nat) {
    || (width == 1 && value <= U8_MAX)
    || (width == 2 && value <= U16_MAX)
    || (width == 4 && value <= U32_MAX)
    || (width == 8 && value <= U64_MAX)
  }

  function PutInt(value: nat, width: nat, t: bytes): bytes {
    ToBe(value, width) + t
  }

  function ReadInt(s: bytes, width: nat): (r: Parsed<nat>)
    requires width == 1 || width == 2 || width == 4 || width == 8
    ensures r.Ok? <==> width <= |s|
    ensures r.Ok? ==> s == PutInt(r.value.0, width, r.value.1) && Fits(r.value.0, width)
    ensures r.Err? ==> r.error == MalformedInput
  {
    var (b, t) :- Take(s, width);
    BeOfValue(b);
    Ok((FromBe(b), t))
  }

  lemma ReadPutInt(value: nat, width: nat, t: bytes)
    requires Fits(value, width)
    ensures ReadInt(PutInt(value, width, t), width) == Ok((value, t))
  {
    BeRoundTrip(value, width);
    TakePut(ToBe(value, width), t);
    assert PutInt(value, width, t) == Put(ToBe(value, width), t);
  }

  /** `push_frame`: a 32-bit length, then the bytes. */
  function PutFrame(b: bytes, t: bytes): bytes {
    PutInt(|b|, 4, Put(b, t))
  }

  function ReadFrame(s: bytes): (r: Parsed<bytes>)
    ensures r.Ok? ==> s == PutFrame(r.value.0, r.value.1) && |r.value.0| <= MAX_INPUT_BYTES
  {
    var (n, s1) :- ReadInt(s, 4);
    if n > MAX_INPUT_BYTES then Err(InputTooLarge) else Take(s1, n)
  }

  lemma ReadPutFrame(b: bytes, t: bytes)
    requires |b| <= MAX_INPUT_BYTES
    ensures ReadFrame(PutFrame(b, t)) == Ok((b, t))
  {
    ReadPutInt(|b|, 4, Put(b, t));
    TakePut(b, t);
  }
}
