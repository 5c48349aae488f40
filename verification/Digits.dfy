/** Positional notation, most significant digit first, in any base. Big-endian integers are
    base 256; the recovery secret regroups base 256 as base 32. */
module Digits {
  import opened Bytes

  function Pow(base: nat, n: nat): nat {
    if n == 0 then 1 else base * Pow(base, n - 1)
  }

  /** The number a digit string denotes. */
  function Value(base: nat, digits: seq<nat>): nat {
    if digits == [] then 0
    else Value(base, digits[..|digits| - 1]) * base + digits[|digits| - 1]
  }

  /** The last `n` digits of a number. */
  function Write(base: nat, n: nat, value: nat): (digits: seq<nat>)
    requires base > 0
    ensures |digits| == n
    ensures forall i :: 0 <= i < n ==> digits[i] < base
  {
    if n == 0 then [] else Write(base, n - 1, value / base) + [value % base]
  }

  lemma PowPositive(base: nat, n: nat)
    requires base > 0
    ensures Pow(base, n) > 0
  {
  }

  lemma {:induction false} PowAdd(base: nat, m: nat, n: nat)
    ensures Pow(base, m + n) == Pow(base, m) * Pow(base, n)
  {
    if m > 0 {
      PowAdd(base, m - 1, n);
      MulAssociative(base, Pow(base, m - 1), Pow(base, n));
    }
  }

  lemma MulAssociative(a: nat, b: nat, c: nat)
    ensures a * (b * c) == a * b * c
  {
  }

  lemma MulMonotone(a: nat, b: nat, c: nat)
    requires a <= b
    ensures a * c <= b * c
  {
  }

  lemma {:induction false} ValueBound(base: nat, digits: seq<nat>)
    requires forall i :: 0 <= i < |digits| ==> digits[i] < base
    ensures Value(base, digits) < Pow(base, |digits|)
  {
    if digits != [] {
      var front := digits[..|digits| - 1];
      ValueBound(base, front);
      AppendDigit(base, Value(base, front), Pow(base, |front|), digits[|digits| - 1]);
    }
  }

  lemma AppendDigit(base: nat, v: nat, bound: nat, digit: nat)
    requires v < bound && digit < base
    ensures v * base + digit < base * bound
  {
    MulMonotone(v + 1, bound, base);
    Distribute(v, base);
  }

  lemma Distribute(q: nat, base: nat)
    ensures (q + 1) * base == q * base + base
  {
  }

  /** Writing and reading back is the identity on numbers that fit. */
  lemma {:induction false} ValueOfWrite(base: nat, n: nat, value: nat)
    requires base > 0 && value < Pow(base, n)
    ensures Value(base, Write(base, n, value)) == value
  {
    if n > 0 {
      var w := Write(base, n, value);
      QuotientBelow(base, value, Pow(base, n - 1));
      ValueOfWrite(base, n - 1, value / base);
      assert w[..|w| - 1] == Write(base, n - 1, value / base);
      DivMod(base, value);
    }
  }

  lemma QuotientBelow(base: nat, value: nat, bound: nat)
    requires base > 0 && value < base * bound
    ensures value / base < bound
  {
    DivMod(base, value);
    if value / base >= bound {
      MulMonotone(bound, value / base, base);
    }
  }

  lemma DivMod(base: nat, value: nat)
    requires base > 0
    ensures value == (value / base) * base + value % base
  {
  }

  /** Reading and writing back is the identity on digit strings. */
  lemma {:induction false} WriteOfValue(base: nat, digits: seq<nat>)
    requires base > 0
    requires forall i :: 0 <= i < |digits| ==> digits[i] < base
    ensures Write(base, |digits|, Value(base, digits)) == digits
  {
    if digits != [] {
      var front, last := digits[..|digits| - 1], digits[|digits| - 1];
      WriteOfValue(base, front);
      QuotientRemainder(base, Value(base, front), last);
      assert digits == front + [last];
    }
  }

  lemma QuotientRemainder(base: nat, q: nat, r: nat)
    requires r < base
    ensures (q * base + r) / base == q
    ensures (q * base + r) % base == r
  {
    var x := q * base + r;
    DivMod(base, x);
    if q < x / base {
      MulMonotone(q + 1, x / base, base);
      Distribute(q, base);
    } else if x / base < q {
      MulMonotone(x / base + 1, q, base);
      Distribute(x / base, base);
    }
  }

  /** Digit strings of one length that denote the same number are the same string. */
  lemma ValueInjective(base: nat, a: seq<nat>, b: seq<nat>)
    requires base > 0 && |a| == |b| && Value(base, a) == Value(base, b)
    requires forall i :: 0 <= i < |a| ==> a[i] < base
    requires forall i :: 0 <= i < |b| ==> b[i] < base
    ensures a == b
  {
    WriteOfValue(base, a);
    WriteOfValue(base, b);
  }

  lemma PowersOf256()
    ensures Pow(256, 1) == 0x100 && Pow(256, 2) == 0x1_0000
    ensures Pow(256, 4) == 0x1_0000_0000 && Pow(256, 8) == 0x1_0000_0000_0000_0000
  {
    assert Pow(256, 2) == 256 * Pow(256, 1);
    PowAdd(256, 2, 2);
    PowAdd(256, 4, 4);
  }

  /** `to_be_bytes` at the given width. */
  function ToBe(value: nat, width: nat): (b: bytes)
    ensures |b| == width
  {
    Write(256, width, value)
  }

  /** `from_be_bytes`. */
  function FromBe(b: bytes): nat {
    Value(256, b)
  }

  lemma BeRoundTrip(value: nat, width: nat)
    requires width == 1 || width == 2 || width == 4 || width == 8
    requires width == 1 ==> value <= U8_MAX
    requires width == 2 ==> value <= U16_MAX
    requires width == 4 ==> value <= U32_MAX
    requires width == 8 ==> value <= U64_MAX
    ensures FromBe(ToBe(value, width)) == value
  {
    PowersOf256();
    ValueOfWrite(256, width, value);
  }

  lemma BeOfValue(b: bytes)
    ensures ToBe(FromBe(b), |b|) == b
    ensures |b| == 1 ==> FromBe(b) <= U8_MAX
    ensures |b| == 2 ==> FromBe(b) <= U16_MAX
    ensures |b| == 4 ==> FromBe(b) <= U32_MAX
    ensures |b| == 8 ==> FromBe(b) <= U64_MAX
  {
    PowersOf256();
    WriteOfValue(256, b);
    ValueBound(256, b);
  }
}
