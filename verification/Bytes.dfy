/** Machine integers, little-endian numbers and the result of a read from a byte stream. */
module Bytes {
  type uint8 = x: int | 0 <= x < 0x100
  type uint16 = x: int | 0 <= x < 0x1_0000
  type uint32 = x: int | 0 <= x < 0x1_0000_0000
  type uint64 = x: int | 0 <= x < 0x1_0000_0000_0000_0000
  type int32 = x: int | -0x8000_0000 <= x < 0x8000_0000
  type int64 = x: int | -0x8000_0000_0000_0000 <= x < 0x8000_0000_0000_0000

  /** What an `Unserialize` leaves behind: a value, or a thrown exception; in both cases the
      position the stream has moved to. */
  datatype Parsed<+T> = Got(value: T, next: nat) | Thrown(next: nat) {

    predicate IsFailure() {
      Thrown?
    }

    function PropagateFailure<U>(): Parsed<U>
      requires Thrown?
    {
      Thrown(next)
    }

    function Extract(): (T, nat)
      requires Got?
    {
      (value, next)
    }
  }

  function Min(a: nat, b: nat): nat {
    if a < b then a else b
  }

  /** The bytes `e` stand in `s` at position `pos`. */
  predicate At(s: seq<uint8>, pos: nat, e: seq<uint8>) {
    pos + |e| <= |s| && s[pos..pos + |e|] == e
  }

  lemma AtConcat(s: seq<uint8>, pos: nat, a: seq<uint8>, b: seq<uint8>)
    ensures At(s, pos, a + b) <==> At(s, pos, a) && At(s, pos + |a|, b)
  {
    if pos + |a| + |b| <= |s| {
      var w := s[pos..pos + |a| + |b|];
      assert w[..|a|] == s[pos..pos + |a|];
      assert w[|a|..] == s[pos + |a|..pos + |a| + |b|];
      assert w == w[..|a|] + w[|a|..];
      assert (a + b)[..|a|] == a && (a + b)[|a|..] == b;
    }
  }

  lemma AtConcat4(s: seq<uint8>, pos: nat, a: seq<uint8>, b: seq<uint8>, c: seq<uint8>, d: seq<uint8>)
    ensures At(s, pos, a + b + c + d) <==>
      && At(s, pos, a) && At(s, pos + |a|, b)
      && At(s, pos + |a| + |b|, c) && At(s, pos + |a| + |b| + |c|, d)
  {
    AtConcat(s, pos, a + b + c, d);
    AtConcat(s, pos, a + b, c);
    AtConcat(s, pos, a, b);
  }

  lemma Associate4(o: seq<uint8>, a: seq<uint8>, b: seq<uint8>, c: seq<uint8>, d: seq<uint8>)
    ensures o + a + b + c + d == o + (a + b + c + d)
    ensures o + a + b == o + (a + b)
  {
  }

  lemma Associate6(o: seq<uint8>, a: seq<uint8>, b: seq<uint8>, c: seq<uint8>,
                   d: seq<uint8>, e: seq<uint8>, f: seq<uint8>)
    ensures o + a + b + c + d + e + f == o + (a + b + c + d + e + f)
  {
    Associate4(o, a, b, c, d);
    Associate4(o, a + b + c + d, e, f, []);
  }

  // ---------- lists ----------

  lemma ConcatAssociates<T>(a: seq<T>, b: seq<T>, c: seq<T>)
    ensures (a + b) + c == a + (b + c)
    ensures [] + a == a == a + []
  {
  }

  lemma TakeHas<T>(s: seq<T>, k: nat, j: nat)
    requires k <= |s|
    ensures j < k ==> s[j] in s[..k]
  {
    assert j < k ==> s[..k][j] == s[j];
  }

  function FlatMap<A, B>(f: A -> seq<B>, xs: seq<A>): seq<B> {
    if xs == [] then [] else f(xs[0]) + FlatMap(f, xs[1..])
  }

  lemma {:induction false} FlatMapConcat<A, B>(f: A -> seq<B>, xs: seq<A>, ys: seq<A>)
    ensures FlatMap(f, xs + ys) == FlatMap(f, xs) + FlatMap(f, ys)
  {
    if xs == [] {
      assert xs + ys == ys;
    } else {
      FlatMapConcat(f, xs[1..], ys);
      assert (xs + ys)[0] == xs[0] && (xs + ys)[1..] == xs[1..] + ys;
      ConcatAssociates(f(xs[0]), FlatMap(f, xs[1..]), FlatMap(f, ys));
    }
  }

  lemma FlatMapOne<A, B>(f: A -> seq<B>, x: A)
    ensures FlatMap(f, [x]) == f(x)
  {
    assert FlatMap(f, [x]) == f(x) + FlatMap(f, []);
  }

  lemma {:induction false} FlatMapInverse<A, B>(f: A -> seq<B>, g: B -> seq<A>, xs: seq<A>)
    requires forall x :: x in xs ==> FlatMap(g, f(x)) == [x]
    ensures FlatMap(g, FlatMap(f, xs)) == xs
  {
    if xs != [] {
      FlatMapInverse(f, g, xs[1..]);
      FlatMapConcat(g, f(xs[0]), FlatMap(f, xs[1..]));
      assert xs == [xs[0]] + xs[1..];
    }
  }

  // ---------- little-endian numbers ----------

  function Pow256(k: nat): (p: nat)
    ensures p > 0
  {
    if k == 0 then 1 else 256 * Pow256(k - 1)
  }

  function LE(n: nat, k: nat): (s: seq<uint8>)
    ensures |s| == k
  {
    if k == 0 then [] else [n % 256] + LE(n / 256, k - 1)
  }

  function FromLE(s: seq<uint8>): (n: nat)
    ensures n < Pow256(|s|)
  {
    if s == [] then 0 else s[0] + 256 * FromLE(s[1..])
  }

  lemma MulGap(m: nat, a: nat, b: nat)
    requires a < b
    ensures m * a + m <= m * b
  {
    assert m * b == m * a + m * (b - a);
    assert m * (b - a) == m + m * (b - a - 1);
  }

  lemma DivModUnique(n: nat, m: nat, c: nat, r: nat)
    requires m > 0 && n == m * c + r && r < m
    ensures n / m == c && n % m == r
  {
    var k := n / m;
    assert n == m * k + n % m;
    if c < k {
      MulGap(m, c, k);
    } else if k < c {
      MulGap(m, k, c);
    }
  }

  lemma ModOfDiv(n: nat, q: nat)
    requires q > 0
    ensures n % (256 * q) == n % 256 + 256 * ((n / 256) % q)
  {
    var a, b := n / 256, n % 256;
    var c, d := a / q, a % q;
    assert n == 256 * (c * q + d) + b == (256 * q) * c + (256 * d + b);
    assert 256 * d + b < 256 * q;
    DivModUnique(n, 256 * q, c, 256 * d + b);
  }

  /** Little-endian writing keeps exactly the value modulo 256^k. */
  lemma {:induction false} FromLEOfLE(n: nat, k: nat)
    ensures FromLE(LE(n, k)) == n % Pow256(k)
    decreases k
  {
    if k > 0 {
      FromLEOfLE(n / 256, k - 1);
      var q := Pow256(k - 1);
      assert LE(n, k)[1..] == LE(n / 256, k - 1);
      ModOfDiv(n, q);
    }
  }

  lemma {:induction false} LEOfFromLE(s: seq<uint8>)
    ensures LE(FromLE(s), |s|) == s
  {
    if s != [] {
      LEOfFromLE(s[1..]);
      assert FromLE(s) / 256 == FromLE(s[1..]);
      assert s == [s[0]] + s[1..];
    }
  }

  lemma LEFits(n: nat, k: nat)
    requires n < Pow256(k)
    ensures FromLE(LE(n, k)) == n
  {
    FromLEOfLE(n, k);
    DivModUnique(n, Pow256(k), 0, n);
  }

  lemma PowerValues()
    ensures Pow256(1) == 0x100 && Pow256(2) == 0x1_0000
    ensures Pow256(4) == 0x1_0000_0000 && Pow256(8) == 0x1_0000_0000_0000_0000
  {
  }

  // ---------- two's complement ----------

  function Unsigned32(x: int32): uint32 {
    if x < 0 then x + 0x1_0000_0000 else x
  }

  function Signed32(x: uint32): int32 {
    if x < 0x8000_0000 then x else x - 0x1_0000_0000
  }

  function Unsigned64(x: int64): uint64 {
    if x < 0 then x + 0x1_0000_0000_0000_0000 else x
  }

  function Signed64(x: uint64): int64 {
    if x < 0x8000_0000_0000_0000 then x else x - 0x1_0000_0000_0000_0000
  }

  // ---------- numbers, byte for byte ----------

  /** The number that two bytes spell. */
  function Spelled2(s: seq<uint8>, pos: nat): nat
    requires pos + 2 <= |s|
  {
    var a: int, b: int := s[pos], s[pos + 1];
    a + 0x100 * b
  }

  /** The number that four bytes spell. */
  function Spelled4(s: seq<uint8>, pos: nat): nat
    requires pos + 4 <= |s|
  {
    var a: int, b: int, c: int, d: int := s[pos], s[pos + 1], s[pos + 2], s[pos + 3];
    a + 0x100 * b + 0x1_0000 * c + 0x100_0000 * d
  }

  /** The number that eight bytes spell. */
  function Spelled8(s: seq<uint8>, pos: nat): nat
    requires pos + 8 <= |s|
  {
    Spelled4(s, pos) + 0x1_0000_0000 * Spelled4(s, pos + 4)
  }

  lemma FromLEStep(s: seq<uint8>, pos: nat, k: nat)
    requires 0 < k && pos + k <= |s|
    ensures FromLE(s[pos..pos + k]) == s[pos] + 256 * FromLE(s[pos + 1..pos + k])
  {
    assert s[pos..pos + k][1..] == s[pos + 1..pos + k];
  }

  lemma FromLE2(s: seq<uint8>, pos: nat)
    requires pos + 2 <= |s|
    ensures FromLE(s[pos..pos + 2]) == Spelled2(s, pos)
  {
    FromLEStep(s, pos, 2);
    FromLEStep(s, pos + 1, 1);
  }

  lemma FromLE4(s: seq<uint8>, pos: nat)
    requires pos + 4 <= |s|
    ensures FromLE(s[pos..pos + 4]) == Spelled4(s, pos)
  {
    FromLEStep(s, pos, 4);
    FromLEStep(s, pos + 1, 3);
    FromLEStep(s, pos + 2, 2);
    FromLEStep(s, pos + 3, 1);
  }

  lemma FromLE8(s: seq<uint8>, pos: nat)
    requires pos + 8 <= |s|
    ensures FromLE(s[pos..pos + 8]) == Spelled8(s, pos)
  {
    FromLEStep(s, pos, 8);
    FromLEStep(s, pos + 1, 7);
    FromLEStep(s, pos + 2, 6);
    FromLEStep(s, pos + 3, 5);
    FromLEStep(s, pos + 4, 4);
    FromLEStep(s, pos + 5, 3);
    FromLEStep(s, pos + 6, 2);
    FromLEStep(s, pos + 7, 1);
  }

  lemma LEStep(n: nat, k: nat)
    requires k > 0
    ensures LE(n, k) == [n % 256] + LE(n / 256, k - 1)
  {
  }

  lemma LE2(n: nat)
    requires n < 0x1_0000
    ensures LE(n, 2) == [n % 0x100, n / 0x100]
  {
    LEStep(n, 2);
    LEStep(n / 256, 1);
  }

  lemma Quotients(n: nat)
    ensures n / 0x100 / 0x100 == n / 0x1_0000 && n / 0x1_0000 / 0x100 == n / 0x100_0000
  {
  }

  lemma LE4(n: nat)
    requires n < 0x1_0000_0000
    ensures LE(n, 4) == [n % 0x100, n / 0x100 % 0x100, n / 0x1_0000 % 0x100, n / 0x100_0000]
  {
    Quotients(n);
    LEStep(n, 4);
    LEStep(n / 0x100, 3);
    LEStep(n / 0x1_0000, 2);
    LEStep(n / 0x100_0000, 1);
  }

  /** Two's complement: the signed number is the unsigned one modulo 2^32 or 2^64. */
  lemma SignedIsCongruent(x: uint32, y: uint64)
    ensures (Signed32(x) - x) % 0x1_0000_0000 == 0
    ensures (Signed64(y) - y) % 0x1_0000_0000_0000_0000 == 0
  {
  }
}
