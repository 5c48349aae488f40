/** The base-32 codec of the recovery secret (enrollment.rs).

    The specification reads a byte string as one big-endian number, shifts it left to a multiple of
    five bits, and writes it in base 32. The loops carry a 32-bit accumulator that overflows; only
    its low bits, the ones not yet written, ever matter. */
module Crockford {
  import opened Bytes
  import opened Digits

  const U32: nat := 0x1_0000_0000

  /** `CROCKFORD_ALPHABET`: the digits, then the letters without I, L, O and U. */
  const ALPHABET: bytes :=
    [48, 49, 50, 51, 52, 53, 54, 55, 56, 57, 65, 66, 67, 68, 69, 70,
     71, 72, 74, 75, 77, 78, 80, 81, 82, 83, 84, 86, 87, 88, 89, 90]

  /** `crockford_value`: O reads as zero, I and L as one. */
  function SymbolValue(b: byte): (v: Option<nat>)
    ensures v.Some? ==> v.value < 32
  {
    if b == 48 || b == 79 then Some(0)
    else if b == 49 || b == 73 || b == 76 then Some(1)
    else if 50 <= b <= 57 then Some(b - 48)
    else if 65 <= b <= 72 then Some(b - 65 + 10)
    else if 74 <= b <= 75 then Some(b - 74 + 18)
    else if 77 <= b <= 78 then Some(b - 77 + 20)
    else if 80 <= b <= 84 then Some(b - 80 + 22)
    else if 86 <= b <= 90 then Some(b - 86 + 27)
    else None
  }

  lemma SymbolOfAlphabet(v: nat)
    requires v < 32
    ensures SymbolValue(ALPHABET[v]) == Some(v)
  {
  }

  /** A symbol is read exactly as its place in the alphabet, or as the digit it is mistaken for. */
  lemma SymbolExactly(b: byte, v: nat)
    ensures SymbolValue(b) == Some(v) <==>
      v < 32 && (b == ALPHABET[v] || (v == 0 && b == 79) || (v == 1 && (b == 73 || b == 76)))
  {
    if SymbolValue(b) == Some(v) {
      assert v < 32;
    } else if v < 32 {
      SymbolOfAlphabet(v);
    }
  }

  // The specification

  function Pow2(n: nat): nat {
    Pow(2, n)
  }

  function SymbolCount(n: nat): nat {
    (8 * n + 4) / 5
  }

  /** Bits of padding in the last symbol. */
  function Padding(n: nat): (p: nat)
    ensures p < 5
  {
    5 * SymbolCount(n) - 8 * n
  }

  function Symbols(input: bytes): (s: seq<nat>)
    ensures |s| == SymbolCount(|input|) && forall i :: 0 <= i < |s| ==> s[i] < 32
  {
    Write(32, SymbolCount(|input|), Shifted(input))
  }

  /** The input's number, shifted left by the padding. */
  function Shifted(input: bytes): nat {
    Times(Value(256, input), Pow2(Padding(|input|)))
  }

  function Times(a: nat, b: nat): nat {
    a * b
  }

  function Spell(symbols: seq<nat>): (text: bytes)
    requires forall i :: 0 <= i < |symbols| ==> symbols[i] < 32
    ensures |text| == |symbols|
  {
    seq(|symbols|, i requires 0 <= i < |symbols| => ALPHABET[symbols[i]])
  }

  function Encoded(input: bytes): bytes {
    Spell(Symbols(input))
  }

  predicate Readable(text: bytes) {
    forall i :: 0 <= i < |text| ==> SymbolValue(text[i]).Some?
  }

  function Values(text: bytes): (s: seq<nat>)
    requires Readable(text)
    ensures |s| == |text| && forall i :: 0 <= i < |s| ==> s[i] < 32
  {
    seq(|text|, i requires 0 <= i < |text| => SymbolValue(text[i]).value)
  }

  function ByteCount(m: nat): nat {
    5 * m / 8
  }

  function Leftover(m: nat): (p: nat)
    ensures p < 8
  {
    5 * m - 8 * ByteCount(m)
  }

  /** The bytes a symbol string stands for; its leftover bits must be zero. */
  function DecodedSymbols(symbols: seq<nat>): Result<bytes> {
    PowPositive(2, Leftover(|symbols|));
    var q := Pow2(Leftover(|symbols|));
    if Value(32, symbols) % q != 0 then Err(MalformedInput)
    else Ok(Write(256, ByteCount(|symbols|), Value(32, symbols) / q))
  }

  function Decoded(text: bytes): Result<bytes> {
    if Readable(text) then DecodedSymbols(Values(text)) else Err(MalformedInput)
  }

  // Arithmetic of the accumulator

  lemma SplitDigit(a: nat, q: nat, base: nat)
    requires q > 0 && base > 0
    ensures q * base > 0 && a % (q * base) == (a / q) % base * q + a % q
  {
    var d, r := (a / q) / base, (a / q) % base;
    DivMod(q, a);
    DivMod(base, a / q);
    assert a / q == d * base + r;
    calc {
      a;
      (d * base + r) * q + a % q;
      d * (base * q) + (r * q + a % q);
    }
    AppendDigit(q, r, base, a % q);
    QuotientRemainder(q * base, d, r * q + a % q);
  }

  lemma ModOfMod(a: nat, q: nat, k: nat)
    requires q > 0 && k > 0
    ensures q * k > 0 && (a % (q * k)) % q == a % q
  {
    SplitDigit(a, q, k);
    QuotientRemainder(q, (a / q) % k, a % q);
  }

  /** Shifting in a digit shifts the pending bits: nothing above them matters. */
  lemma ShiftIn(a: nat, q: nat, base: nat, digit: nat)
    requires q > 0 && digit < base
    ensures q * base > 0 && (a * base + digit) % (q * base) == a % q * base + digit
  {
    DivMod(q, a);
    calc {
      a * base + digit;
      ((a / q) * q + a % q) * base + digit;
      (a / q) * (q * base) + (a % q * base + digit);
    }
    AppendDigit(base, a % q, q, digit);
    QuotientRemainder(q * base, a / q, a % q * base + digit);
  }

  lemma PowerSplit(m: nat, n: nat)
    requires m >= n
    ensures Pow2(m) == Pow2(n) * Pow2(m - n)
    ensures Pow2(n) > 0 && Pow2(m - n) > 0
  {
    PowAdd(2, n, m - n);
    PowPositive(2, n);
    PowPositive(2, m - n);
  }

  lemma SmallPowers()
    ensures Pow2(0) == 1 && Pow2(5) == 32 && Pow2(8) == 256 && Pow2(32) == U32
  {
    assert Pow(2, 1) == 2 && Pow(2, 2) == 4 && Pow(2, 3) == 8 && Pow(2, 4) == 16 && Pow(2, 5) == 32;
    PowAdd(2, 4, 4);
    PowAdd(2, 8, 8);
    PowAdd(2, 16, 16);
  }

  /** One wrapping shift of the accumulator, as the pending bits see it. */
  lemma Accumulate(a: nat, bits: nat, width: nat, digit: nat)
    requires width == 5 || width == 8
    requires bits + width <= 32 && digit < Pow2(width)
    ensures Pow2(bits) > 0 && Pow2(bits + width) > 0
    ensures (a * Pow2(width) + digit) % U32 % Pow2(bits + width) == a % Pow2(bits) * Pow2(width) + digit
  {
    SmallPowers();
    PowerSplit(bits + width, bits);
    ShiftIn(a, Pow2(bits), Pow2(width), digit);
    PowerSplit(32, bits + width);
    ModOfMod(a * Pow2(width) + digit, Pow2(bits + width), Pow2(32 - bits - width));
  }

  /** Taking the top digit off the pending bits. */
  lemma Emit(a: nat, bits: nat, width: nat)
    requires bits >= width
    ensures Pow2(bits) > 0 && Pow2(bits - width) > 0 && Pow2(width) > 0
    ensures a % Pow2(bits) == (a / Pow2(bits - width)) % Pow2(width) * Pow2(bits - width) + a % Pow2(bits - width)
  {
    PowerSplit(bits, bits - width);
    PowPositive(2, width);
    SplitDigit(a, Pow2(bits - width), Pow2(width));
  }

  /** The value so far, once a digit moves from the accumulator to the output. */
  lemma EmitValue(high: nat, a: nat, bits: nat, width: nat)
    requires bits >= width
    ensures Pow2(bits) > 0 && Pow2(bits - width) > 0 && Pow2(width) > 0
    ensures high * Pow2(bits) + a % Pow2(bits)
         == (high * Pow2(width) + (a / Pow2(bits - width)) % Pow2(width)) * Pow2(bits - width) + a % Pow2(bits - width)
  {
    Emit(a, bits, width);
    PowerSplit(bits, bits - width);
    Regroup(high, Pow2(bits), Pow2(width), Pow2(bits - width), a / Pow2(bits - width) % Pow2(width),
            a % Pow2(bits - width));
  }

  lemma Regroup(high: nat, whole: nat, p: nat, q: nat, d: nat, r: nat)
    requires whole == q * p
    ensures high * whole + (d * q + r) == (high * p + d) * q + r
  {
    DistributeProduct(high, p, d, q);
  }

  lemma ShiftValue(high: nat, low: nat, bits: nat, width: nat, digit: nat)
    ensures (high * Pow2(bits) + low) * Pow2(width) + digit == high * Pow2(bits + width) + (low * Pow2(width) + digit)
  {
    PowAdd(2, bits, width);
    DistributeProduct(high, Pow2(bits), low, Pow2(width));
  }

  lemma DistributeProduct(a: nat, p: nat, b: nat, q: nat)
    ensures (a * p + b) * q == a * (p * q) + b * q
  {
    MulAssociative(a, p, q);
  }

  // The regrouping loop, seen from outside: digits of one width go in, digits of another come out

  /** The digits written so far and the pending low bits of the accumulator together hold the
      number read so far. */
  ghost predicate Holds(out: nat, digits: seq<nat>, bits: nat, accumulator: nat, value: nat) {
    Pow2(bits) > 0 && Value(Pow2(out), digits) * Pow2(bits) + accumulator % Pow2(bits) == value
  }

  lemma ValueAppend(base: nat, digits: seq<nat>, d: nat)
    ensures Value(base, digits + [d]) == Value(base, digits) * base + d
  {
    assert (digits + [d])[..|digits + [d]| - 1] == digits;
  }

  lemma DigitIn(out: nat, width: nat, digits: seq<nat>, bits: nat, accumulator: nat, read: seq<nat>, d: nat)
    requires width == 5 || width == 8
    requires bits + width <= 32 && d < Pow2(width)
    requires Holds(out, digits, bits, accumulator, Value(Pow2(width), read))
    ensures Holds(out, digits, bits + width, (accumulator * Pow2(width) + d) % U32, Value(Pow2(width), read + [d]))
  {
    Accumulate(accumulator, bits, width, d);
    ValueAppend(Pow2(width), read, d);
    ShiftValue(Value(Pow2(out), digits), accumulator % Pow2(bits), bits, width, d);
  }

  lemma DigitOut(out: nat, digits: seq<nat>, bits: nat, accumulator: nat, value: nat)
    requires bits >= out && Holds(out, digits, bits, accumulator, value)
    ensures Pow2(bits - out) > 0 && Pow2(out) > 0
    ensures Holds(out, digits + [accumulator / Pow2(bits - out) % Pow2(out)], bits - out, accumulator, value)
  {
    EmitValue(Value(Pow2(out), digits), accumulator, bits, out);
    ValueAppend(Pow2(out), digits, accumulator / Pow2(bits - out) % Pow2(out));
  }

  /** The pending bits, moved to the top of a symbol. */
  lemma PendingShifted(accumulator: nat, p: nat, q: nat)
    requires p > 0 && q > 0 && p * q == 32
    ensures accumulator * q % U32 % 32 == accumulator % p * q
  {
    ShiftIn(accumulator, p, q, 0);
    ModOfMod(accumulator * q, 32, 0x800_0000);
  }

  /** The last symbol takes the pending bits, padded with zeros on the right. */
  lemma LastSymbol(symbols: seq<nat>, bits: nat, accumulator: nat, value: nat)
    requires 0 < bits < 5 && Holds(5, symbols, bits, accumulator, value)
    ensures accumulator * Pow2(5 - bits) % U32 % 32 < 32
    ensures Value(32, symbols + [accumulator * Pow2(5 - bits) % U32 % 32]) == value * Pow2(5 - bits)
  {
    SmallPowers();
    PowerSplit(5, bits);
    var p, q := Pow2(bits), Pow2(5 - bits);
    PendingShifted(accumulator, p, q);
    ValueAppend(32, symbols, accumulator % p * q);
    DistributeProduct(Value(32, symbols), p, accumulator % p, q);
  }

  // One pass of each loop

  lemma EncodeIn(input: bytes, i: nat, symbols: seq<nat>, bits: nat, accumulator: nat)
    requires i < |input| && bits < 5 && Holds(5, symbols, bits, accumulator, Value(256, input[..i]))
    ensures Holds(5, symbols, bits + 8, (accumulator * 256 + input[i]) % U32, Value(256, input[..i + 1]))
  {
    SmallPowers();
    DigitIn(5, 8, symbols, bits, accumulator, input[..i], input[i]);
    assert input[..i + 1] == input[..i] + [input[i]];
  }

  lemma EncodeOut(symbols: seq<nat>, bits: nat, accumulator: nat, value: nat)
    requires bits >= 5 && Holds(5, symbols, bits, accumulator, value)
    ensures Pow2(bits - 5) > 0
    ensures Holds(5, symbols + [accumulator / Pow2(bits - 5) % 32], bits - 5, accumulator, value)
  {
    SmallPowers();
    DigitOut(5, symbols, bits, accumulator, value);
  }

  /** What the encoding loop has written, once it has consumed everything. */
  lemma EncodeDone(input: bytes, symbols: seq<nat>, bits: nat, accumulator: nat)
    requires bits < 5 && 5 * |symbols| + bits == 8 * |input| && forall j :: 0 <= j < |symbols| ==> symbols[j] < 32
    requires Holds(5, symbols, bits, accumulator, Value(256, input))
    ensures bits == 0 ==> symbols == Symbols(input)
    ensures bits > 0 ==> symbols + [accumulator * Pow2(5 - bits) % U32 % 32] == Symbols(input)
  {
    if bits == 0 {
      DoneWhole(input, symbols, accumulator);
    } else {
      LastSymbol(symbols, bits, accumulator, Value(256, input));
      DonePadded(input, symbols, accumulator * Pow2(5 - bits) % U32 % 32, 5 - bits);
    }
  }

  lemma DoneWhole(input: bytes, symbols: seq<nat>, accumulator: nat)
    requires 5 * |symbols| == 8 * |input| && forall j :: 0 <= j < |symbols| ==> symbols[j] < 32
    requires Holds(5, symbols, 0, accumulator, Value(256, input))
    ensures symbols == Symbols(input)
  {
    SmallPowers();
    AreSymbols(input, symbols, 0);
  }

  lemma DonePadded(input: bytes, symbols: seq<nat>, last: nat, p: nat)
    requires 5 * |symbols| + 5 == 8 * |input| + p && p < 5 && last < 32
      && forall j :: 0 <= j < |symbols| ==> symbols[j] < 32
    requires Value(32, symbols + [last]) == Value(256, input) * Pow2(p)
    ensures symbols + [last] == Symbols(input)
  {
    AreSymbols(input, symbols + [last], p);
  }

  lemma AreSymbols(input: bytes, symbols: seq<nat>, p: nat)
    requires 5 * |symbols| == 8 * |input| + p && p < 5 && forall j :: 0 <= j < |symbols| ==> symbols[j] < 32
    requires Value(32, symbols) == Value(256, input) * Pow2(p)
    ensures symbols == Symbols(input)
  {
    assert SymbolCount(|input|) == |symbols|;
    assert Padding(|input|) == p;
    WriteOfValue(32, symbols);
  }

  lemma DecodeIn(input: bytes, i: nat, output: bytes, bits: nat, accumulator: nat)
    requires i < |input| && bits < 8 && Readable(input[..i]) && SymbolValue(input[i]).Some?
    requires Holds(8, output, bits, accumulator, Value(32, Values(input[..i])))
    ensures Readable(input[..i + 1])
    ensures Holds(8, output, bits + 5, (accumulator * 32 + SymbolValue(input[i]).value) % U32,
                  Value(32, Values(input[..i + 1])))
  {
    SmallPowers();
    var v := SymbolValue(input[i]).value;
    DigitIn(8, 5, output, bits, accumulator, Values(input[..i]), v);
    assert input[..i + 1] == input[..i] + [input[i]];
    assert Values(input[..i + 1]) == Values(input[..i]) + [v];
  }

  lemma DecodeOut(output: bytes, bits: nat, accumulator: nat, value: nat)
    requires bits >= 8 && Holds(8, output, bits, accumulator, value)
    ensures Pow2(bits - 8) > 0
    ensures Holds(8, output + [accumulator / Pow2(bits - 8) % 256], bits - 8, accumulator, value)
  {
    SmallPowers();
    DigitOut(8, output, bits, accumulator, value);
  }

  lemma DecodeDone(input: bytes, output: bytes, bits: nat, accumulator: nat)
    requires Readable(input) && bits < 8 && 8 * |output| + bits == 5 * |input|
    requires Holds(8, output, bits, accumulator, Value(32, Values(input)))
    ensures Pow2(bits) > 0
    ensures Decoded(input) == if accumulator % Pow2(bits) != 0 then Err(MalformedInput) else Ok(output)
    ensures bits == 0 ==> accumulator % Pow2(bits) == 0
  {
    SmallPowers();
    assert ByteCount(|input|) == |output| && Leftover(|input|) == bits;
    QuotientRemainder(Pow2(bits), Value(256, output), accumulator % Pow2(bits));
    WriteOfValue(256, output);
  }

  /** The state of the encoding loop after the first `read` bytes. */
  ghost predicate Encoding(input: bytes, read: nat, symbols: seq<nat>, bits: nat, accumulator: nat, output: bytes) {
    && read <= |input| && 5 * |symbols| + bits == 8 * read
    && (forall j :: 0 <= j < |symbols| ==> symbols[j] < 32)
    && output == Spell(symbols)
    && Holds(5, symbols, bits, accumulator, Value(256, input[..read]))
  }

  method TakeByte(input: bytes, i: nat, accumulator: u32, bits: nat, output: bytes, ghost symbols: seq<nat>)
    returns (next: u32)
    requires i < |input| && bits < 5 && Encoding(input, i, symbols, bits, accumulator, output)
    ensures Encoding(input, i + 1, symbols, bits + 8, next, output)
  {
    EncodeIn(input, i, symbols, bits, accumulator);
    next := (accumulator * 256 + input[i]) % U32;
  }

  method GiveSymbol(input: bytes, ghost read: nat, accumulator: u32, bits: nat, output: bytes, ghost symbols: seq<nat>)
    returns (next: bytes, index: nat)
    requires 5 <= bits && Encoding(input, read, symbols, bits, accumulator, output)
    ensures Encoding(input, read, symbols + [index], bits - 5, accumulator, next)
  {
    EncodeOut(symbols, bits, accumulator, Value(256, input[..read]));
    index := accumulator / Pow2(bits - 5) % 32;
    SpellNext(symbols, index);
    next := output + [ALPHABET[index]];
  }

  method GiveLast(input: bytes, accumulator: u32, bits: nat, output: bytes, ghost symbols: seq<nat>)
    returns (next: bytes)
    requires bits < 5 && Encoding(input, |input|, symbols, bits, accumulator, output)
    ensures next == Encoded(input)
  {
    assert input[..|input|] == input;
    EncodeDone(input, symbols, bits, accumulator);
    next := output;
    if bits > 0 {
      var index := accumulator * Pow2(5 - bits) % U32 % 32;
      SpellNext(symbols, index);
      next := output + [ALPHABET[index]];
    }
  }

  lemma SpellNext(symbols: seq<nat>, index: nat)
    requires index < 32 && forall j :: 0 <= j < |symbols| ==> symbols[j] < 32
    ensures Spell(symbols + [index]) == Spell(symbols) + [ALPHABET[index]]
  {
  }

  lemma NothingEncoded(input: bytes)
    ensures Encoding(input, 0, [], 0, 0, [])
  {
    SmallPowers();
  }

  /** The inner loop: symbols go out while five bits are pending. */
  method GiveSymbols(input: bytes, ghost read: nat, accumulator: u32, pending: nat, written: bytes,
                     ghost before: seq<nat>)
    returns (bits: nat, output: bytes, ghost symbols: seq<nat>)
    requires Encoding(input, read, before, pending, accumulator, written)
    ensures bits < 5 && Encoding(input, read, symbols, bits, accumulator, output)
  {
    bits, output, symbols := pending, written, before;
    while bits >= 5
      invariant Encoding(input, read, symbols, bits, accumulator, output)
    {
      var index;
      output, index := GiveSymbol(input, read, accumulator, bits, output, symbols);
      bits, symbols := bits - 5, symbols + [index];
    }
  }

  /** `crockford_encode`. */
  method CrockfordEncode(input: bytes) returns (output: bytes)
    ensures output == Encoded(input)
  {
    ghost var symbols: seq<nat> := [];
    output := [];
    var accumulator: u32, bits: nat := 0, 0;
    NothingEncoded(input);
    for i := 0 to |input|
      invariant bits < 5 && Encoding(input, i, symbols, bits, accumulator, output)
    {
      accumulator := TakeByte(input, i, accumulator, bits, output, symbols);
      bits, output, symbols := GiveSymbols(input, i + 1, accumulator, bits + 8, output, symbols);
    }
    output := GiveLast(input, accumulator, bits, output, symbols);
  }

  /** `crockford_decode`. */
  method CrockfordDecode(input: bytes) returns (r: Result<bytes>)
    ensures r == Decoded(input)
  {
    var output: bytes := [];
    var accumulator: u32, bits: nat := 0, 0;
    for i := 0 to |input|
      invariant bits < 8 && 8 * |output| + bits == 5 * i
      invariant Readable(input[..i])
      invariant Holds(8, output, bits, accumulator, Value(32, Values(input[..i])))
    {
      var value := SymbolValue(input[i]);
      if value.None? {
        return Err(MalformedInput);
      }
      DecodeIn(input, i, output, bits, accumulator);
      accumulator := (accumulator * 32 + value.value) % U32;
      bits := bits + 5;
      if bits >= 8 {
        DecodeOut(output, bits, accumulator, Value(32, Values(input[..i + 1])));
        bits := bits - 8;
        output := output + [accumulator / Pow2(bits) % 256];
      }
    }
    assert input[..|input|] == input;
    DecodeDone(input, output, bits, accumulator);
    if bits > 0 && accumulator % Pow2(bits) != 0 {
      return Err(MalformedInput);
    }
    return Ok(output);
  }

  // Round trip

  lemma PowersAgree(n: nat, m: nat)
    ensures Pow(256, n) == Pow2(8 * n) && Pow(32, m) == Pow2(5 * m)
  {
    SmallPowers();
    if n > 0 {
      PowersAgree(n - 1, 0);
      PowAdd(2, 8, 8 * (n - 1));
    }
    if m > 0 {
      PowersAgree(0, m - 1);
      PowAdd(2, 5, 5 * (m - 1));
    }
  }

  lemma SpellReadsBack(symbols: seq<nat>)
    requires forall i :: 0 <= i < |symbols| ==> symbols[i] < 32
    ensures Readable(Spell(symbols)) && Values(Spell(symbols)) == symbols
  {
    forall i | 0 <= i < |symbols|
      ensures SymbolValue(Spell(symbols)[i]) == Some(symbols[i])
    {
      SymbolOfAlphabet(symbols[i]);
    }
  }

  lemma ShiftBound(v: nat, n: nat, m: nat, p: nat)
    requires v < Pow(256, n) && 5 * m == 8 * n + p
    ensures v * Pow2(p) < Pow(32, m)
  {
    PowersAgree(n, m);
    PowAdd(2, 8 * n, p);
    PowPositive(2, p);
    ProductBelow(v, Pow2(8 * n), Pow2(p));
  }

  lemma ShiftedBound(input: bytes)
    ensures Shifted(input) < Pow(32, SymbolCount(|input|))
  {
    ValueBound(256, input);
    ShiftBound(Value(256, input), |input|, SymbolCount(|input|), Padding(|input|));
  }

  /** The symbols denote the input's number, shifted by the padding. */
  lemma SymbolsValue(input: bytes)
    ensures Value(32, Symbols(input)) == Shifted(input)
  {
    ShiftedBound(input);
    ValueOfWrite(32, SymbolCount(|input|), Shifted(input));
  }

  lemma ProductBelow(a: nat, b: nat, c: nat)
    requires a < b && c > 0
    ensures a * c < b * c
  {
    MulMonotone(a + 1, b, c);
    Distribute(a, c);
  }

  lemma DecodeShifted(symbols: seq<nat>, v: nat)
    requires Value(32, symbols) == v * Pow2(Leftover(|symbols|))
    ensures DecodedSymbols(symbols) == Ok(Write(256, ByteCount(|symbols|), v))
  {
    PowPositive(2, Leftover(|symbols|));
    QuotientRemainder(Pow2(Leftover(|symbols|)), v, 0);
  }

  lemma CountsAgree(n: nat)
    ensures ByteCount(SymbolCount(n)) == n && Leftover(SymbolCount(n)) == Padding(n)
  {
  }

  /** Decoding inverts encoding, for every byte string. */
  lemma DecodeOfEncode(input: bytes)
    ensures Decoded(Encoded(input)) == Ok(input)
  {
    SpellReadsBack(Symbols(input));
    CountsAgree(|input|);
    SymbolsValue(input);
    DecodeShifted(Symbols(input), Value(256, input));
    WriteOfValue(256, input);
  }

  /** A readable text decodes to 34 bytes only from exactly 55 symbols. */
  lemma FiftyFiveSymbols(text: bytes)
    requires Decoded(text).Ok?
    ensures |Decoded(text).value| == 34 <==> |text| == 55
  {
  }

  /** Texts of one length decode to the same bytes exactly when they spell the same symbols. */
  lemma DecodeInjective(a: bytes, b: bytes)
    requires |a| == |b| && Decoded(a).Ok? && Decoded(b).Ok?
    ensures Decoded(a) == Decoded(b) <==> Values(a) == Values(b)
  {
    if Decoded(a) == Decoded(b) {
      DecodedQuotient(Values(a));
      DecodedQuotient(Values(b));
      SameQuotient(Value(32, Values(a)), Value(32, Values(b)), Pow2(Leftover(|a|)));
      ValueInjective(32, Values(a), Values(b));
    }
  }

  lemma SameQuotient(v: nat, w: nat, q: nat)
    requires q > 0 && v % q == w % q && v / q == w / q
    ensures v == w
  {
    DivMod(q, v);
    DivMod(q, w);
  }

  lemma DecodedQuotient(symbols: seq<nat>)
    requires DecodedSymbols(symbols).Ok? && forall i :: 0 <= i < |symbols| ==> symbols[i] < 32
    ensures Pow2(Leftover(|symbols|)) > 0 && Value(32, symbols) % Pow2(Leftover(|symbols|)) == 0
    ensures Value(256, DecodedSymbols(symbols).value) == Value(32, symbols) / Pow2(Leftover(|symbols|))
  {
    var n, m := ByteCount(|symbols|), |symbols|;
    ValueBound(32, symbols);
    QuotientBound(Value(32, symbols), n, m, Leftover(m));
    ValueOfWrite(256, n, Value(32, symbols) / Pow2(Leftover(m)));
  }

  lemma QuotientBound(v: nat, n: nat, m: nat, p: nat)
    requires v < Pow(32, m) && 5 * m == 8 * n + p
    ensures Pow2(p) > 0 && v / Pow2(p) < Pow(256, n)
  {
    PowersAgree(n, m);
    PowAdd(2, 8 * n, p);
    PowPositive(2, p);
    DivMod(Pow2(p), v);
    if v / Pow2(p) >= Pow2(8 * n) {
      MulMonotone(Pow2(8 * n), v / Pow2(p), Pow2(p));
    }
  }
}
