/** Counted lists: a codec for one element gives a codec for a run of elements. The source reads
    such runs in a loop that pushes one element a pass. */
module Lists {
  import opened Bytes

  /** The element reader accepts only what the writer writes, and only acceptable values. */
  ghost predicate ElementSound<T(!new)>(put: (T, bytes) -> bytes, read: bytes -> Parsed<T>, ok: T -> bool) {
    forall s: bytes :: read(s).Ok? ==> ok(read(s).value.0) && s == put(read(s).value.0, read(s).value.1)
  }

  /** The element reader reads back every acceptable value, whatever follows it. */
  ghost predicate ElementComplete<T(!new)>(put: (T, bytes) -> bytes, read: bytes -> Parsed<T>, ok: T -> bool) {
    forall x: T, t: bytes :: ok(x) ==> read(put(x, t)) == Ok((x, t))
  }

  predicate All<T>(ok: T -> bool, xs: seq<T>) {
    forall i :: 0 <= i < |xs| ==> ok(xs[i])
  }

  function PutList<T>(put: (T, bytes) -> bytes, xs: seq<T>, t: bytes): bytes {
    if xs == [] then t else put(xs[0], PutList(put, xs[1..], t))
  }

  function ReadList<T>(read: bytes -> Parsed<T>, s: bytes, n: nat): (r: Parsed<seq<T>>)
    ensures r.Ok? ==> |r.value.0| == n
    decreases n
  {
    if n == 0 then Ok(([], s))
    else
      var (x, s1) :- read(s);
      var (rest, t) :- ReadList(read, s1, n - 1);
      Ok(([x] + rest, t))
  }

  lemma {:induction false} ListSound<T(!new)>(
      put: (T, bytes) -> bytes, read: bytes -> Parsed<T>, ok: T -> bool, s: bytes, n: nat)
    requires ElementSound(put, read, ok) && ReadList(read, s, n).Ok?
    ensures All(ok, ReadList(read, s, n).value.0)
    ensures s == PutList(put, ReadList(read, s, n).value.0, ReadList(read, s, n).value.1)
    decreases n
  {
    if n > 0 {
      var (x, s1) := read(s).value;
      ListSound(put, read, ok, s1, n - 1);
      var rest := ReadList(read, s1, n - 1).value.0;
      assert ([x] + rest)[1..] == rest;
    }
  }

  lemma {:induction false} ListComplete<T(!new)>(
      put: (T, bytes) -> bytes, read: bytes -> Parsed<T>, ok: T -> bool, xs: seq<T>, t: bytes)
    requires ElementComplete(put, read, ok) && All(ok, xs)
    ensures ReadList(read, PutList(put, xs, t), |xs|) == Ok((xs, t))
  {
    if xs != [] {
      ListComplete(put, read, ok, xs[1..], t);
      assert xs == [xs[0]] + xs[1..];
    }
  }

  /** Elements of one size give a list of that size each. */
  lemma {:induction false} ListSize<T(!new)>(put: (T, bytes) -> bytes, ok: T -> bool, size: nat, xs: seq<T>, t: bytes)
    requires All(ok, xs) && forall x: T, u: bytes :: ok(x) ==> |put(x, u)| == size + |u|
    ensures |PutList(put, xs, t)| == size * |xs| + |t|
  {
    if xs != [] {
      assert ok(xs[0]);
      ListSize(put, ok, size, xs[1..], t);
      TimesNext(size, |xs| - 1);
    }
  }

  lemma TimesNext(k: nat, n: nat)
    ensures k * (n + 1) == k * n + k
  {
  }
}
