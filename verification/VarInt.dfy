/** libraries/bkbase/include/bkbase/serialize/varint.h: base-128 numbers, most significant group
    first, where every group but the last is marked and counts one more than it shows. */
module VarInt {
  import opened Bytes
  import opened Streams

  const MAX_BYTES := 10

  /** Arithmetic of the 64-bit accumulator. */
  function Wrap(n: nat): uint64 {
    n % 0x1_0000_0000_0000_0000
  }

  // ---------- the number system ----------

  /** The marked groups whose accumulated value, one added after each, is `a`. */
  function Head(a: nat): (h: seq<uint8>)
    ensures forall i :: 0 <= i < |h| ==> h[i] >= 128
  {
    if a == 0 then [] else Head((a - 1) / 128) + [128 + (a - 1) % 128]
  }

  ghost predicate Marked(h: seq<uint8>) {
    forall i :: 0 <= i < |h| ==> h[i] >= 128
  }

  ghost predicate Terminated(t: seq<uint8>) {
    |t| > 0 && t[|t| - 1] < 128 && Marked(t[..|t| - 1])
  }

  function Enc(n: nat): (e: seq<uint8>)
    ensures Terminated(e)
  {
    Head(n / 128) + [n % 128]
  }

  function HeadValue(h: seq<uint8>): nat {
    if h == [] then 0 else 128 * HeadValue(h[..|h| - 1]) + h[|h| - 1] % 128 + 1
  }

  /** The value of a terminated string over the unbounded integers. */
  function Value(t: seq<uint8>): nat
    requires |t| > 0
  {
    128 * HeadValue(t[..|t| - 1]) + t[|t| - 1] % 128
  }

  lemma {:induction false} HeadValueOfHead(a: nat)
    ensures HeadValue(Head(a)) == a
  {
    if a > 0 {
      HeadValueOfHead((a - 1) / 128);
      assert Head(a)[..|Head(a)| - 1] == Head((a - 1) / 128);
    }
  }

  lemma Divide128(x: nat, d: nat)
    requires d < 128
    ensures (128 * x + d) / 128 == x && (128 * x + d) % 128 == d
  {
  }

  lemma NextHead(a: nat, d: nat)
    requires d < 128
    ensures Head(128 * a + d + 1) == Head(a) + [128 + d]
  {
    Divide128(a, d);
  }

  lemma {:induction false} HeadOfHeadValue(h: seq<uint8>)
    requires Marked(h)
    ensures Head(HeadValue(h)) == h
  {
    if h != [] {
      var rest, last := h[..|h| - 1], h[|h| - 1];
      HeadOfHeadValue(rest);
      NextHead(HeadValue(rest), last % 128);
      assert h == rest + [last];
    }
  }

  // Over the unbounded integers the encoding is a bijection onto the terminated strings.

  lemma ValueOfEnc(n: nat)
    ensures Value(Enc(n)) == n
  {
    HeadValueOfHead(n / 128);
    assert Enc(n)[..|Enc(n)| - 1] == Head(n / 128);
  }

  lemma EncOfValue(t: seq<uint8>)
    requires Terminated(t)
    ensures Enc(Value(t)) == t
  {
    var head, last := t[..|t| - 1], t[|t| - 1];
    HeadOfHeadValue(head);
    assert t == head + [last];
    Divide128(HeadValue(head), last);
  }

  /** Byte for byte: a number below 128 is its own byte; any other ends in its remainder, behind the
      bytes of one less than its quotient, of which the last is marked like all before it. */
  lemma WrittenByteForByte(n: nat)
    ensures n < 128 ==> Enc(n) == [n]
    ensures n >= 128 ==>
      var e, f := Enc(n), Enc(n / 128 - 1);
      && |e| == |f| + 1 && e[|f|] == n % 128
      && e[|f| - 1] == f[|f| - 1] + 128 && forall i :: 0 <= i < |f| - 1 ==> e[i] == f[i]
  {
    assert Head(0) == [];
    if n >= 128 {
      assert Head(n / 128) == Head((n / 128 - 1) / 128) + [128 + (n / 128 - 1) % 128];
    }
  }

  // ---------- the reader, on 64-bit arithmetic ----------

  /** The accumulator after shifting in the low seven bits of a byte. */
  function Shift(n: uint64, b: uint8): uint64 {
    Wrap(n * 128) + b % 128
  }

  lemma WrapUnique(n: nat, q: nat, r: nat)
    requires n == 0x1_0000_0000_0000_0000 * q + r && r < 0x1_0000_0000_0000_0000
    ensures Wrap(n) == r
  {
  }

  lemma WrapSum(n: nat, d: nat)
    ensures Wrap(Wrap(n) + d) == Wrap(n + d)
  {
    var q, k := n / 0x1_0000_0000_0000_0000, (Wrap(n) + d) / 0x1_0000_0000_0000_0000;
    WrapUnique(n + d, q + k, Wrap(Wrap(n) + d));
  }

  /** Wrapping at every turn loses nothing modulo 2^64. */
  lemma ShiftWraps(h: nat, b: uint8)
    ensures Shift(Wrap(h), b) == Wrap(128 * h + b % 128)
    ensures Wrap(Wrap(128 * h + b % 128) + 1) == Wrap(128 * h + b % 128 + 1)
  {
    var w, d := 0x1_0000_0000_0000_0000, b % 128;
    var q, r := h / 0x1_0000_0000_0000_0000, Wrap(h);
    var k, m := (r * 128) / 0x1_0000_0000_0000_0000, Wrap(r * 128);
    assert m == 128 * (r - 0x200_0000_0000_0000 * k);
    assert m + d < w;
    WrapUnique(128 * h + d, 128 * q + k, m + d);
    var v := 128 * h + d;
    WrapSum(v, 1);
  }

  /** One turn of the loop per byte, from the accumulator `n`; shift and increment wrap. */
  function Dec(s: seq<uint8>, pos: nat, n: uint64): (r: Parsed<uint64>)
    decreases if pos < |s| then |s| - pos else 0
  {
    if pos >= |s| then Thrown(|s|)
    else if s[pos] < 128 then Got(Shift(n, s[pos]), pos + 1)
    else Dec(s, pos + 1, Wrap(Shift(n, s[pos]) + 1))
  }

  lemma ExtendHead(s: seq<uint8>, start: nat, pos: nat)
    requires start <= pos < |s|
    ensures Shift(Wrap(HeadValue(s[start..pos])), s[pos]) == Wrap(Value(s[start..pos + 1]))
    ensures s[pos] >= 128 ==> Wrap(Wrap(Value(s[start..pos + 1])) + 1) == Wrap(HeadValue(s[start..pos + 1]))
    ensures Marked(s[start..pos + 1]) <==> Marked(s[start..pos]) && s[pos] >= 128
    ensures Terminated(s[start..pos + 1]) <==> Marked(s[start..pos]) && s[pos] < 128
  {
    var t := s[start..pos + 1];
    assert t[..|t| - 1] == s[start..pos];
    assert t == s[start..pos] + [s[pos]];
    ShiftWraps(HeadValue(s[start..pos]), s[pos]);
  }

  /** From the accumulator reached after the marked groups `s[start..pos]`, the reader takes the
      bytes up to and including the first unmarked one, and its result is their value modulo
      2^64; it throws when all the remaining bytes are marked. */
  lemma {:induction false} DecFrom(s: seq<uint8>, start: nat, pos: nat)
    requires start <= pos <= |s| && Marked(s[start..pos])
    ensures var r := Dec(s, pos, Wrap(HeadValue(s[start..pos])));
            if r.Got? then
              pos < r.next <= |s| && Terminated(s[start..r.next]) && r.value == Wrap(Value(s[start..r.next]))
            else
              Marked(s[start..])
    decreases |s| - pos
  {
    if pos < |s| {
      ExtendHead(s, start, pos);
      if s[pos] >= 128 {
        DecFrom(s, start, pos + 1);
      }
    } else {
      assert s[start..pos] == s[start..];
    }
  }

  lemma TerminatedOnce(s: seq<uint8>, start: nat, a: nat, b: nat)
    requires start <= a <= |s| && start <= b <= |s|
    requires Terminated(s[start..a]) && Terminated(s[start..b])
    ensures a == b
  {
    var x, y := s[start..a], s[start..b];
    assert forall i :: 0 <= i < |x| && i < |y| ==> x[i] == y[i];
    assert forall i :: 0 <= i < |x| - 1 ==> x[..|x| - 1][i] == x[i];
    assert forall i :: 0 <= i < |y| - 1 ==> y[..|y| - 1][i] == y[i];
  }

  /** Every terminated string is read, up to its end and no further. */
  lemma DecTerminated(s: seq<uint8>, pos: nat, end: nat)
    requires pos <= end <= |s| && Terminated(s[pos..end])
    ensures Dec(s, pos, 0) == Got(Wrap(Value(s[pos..end])), end)
  {
    assert s[pos..pos] == [];
    DecFrom(s, pos, pos);
    var r := Dec(s, pos, 0);
    assert s[pos..][end - pos - 1] == s[pos..end][end - pos - 1];
    if r.Got? {
      TerminatedOnce(s, pos, end, r.next);
    }
  }

  // ---------- the integer types ----------

  /** The bytes of the unsigned types the template is used with. */
  predicate IsWidth(width: nat) {
    width == 1 || width == 2 || width == 4 || width == 8
  }

  /** The accumulator of 64 bits is assigned to a number of `width` bytes. */
  function DecAs(s: seq<uint8>, pos: nat, width: nat): (r: Parsed<nat>)
    ensures r.Got? ==> r.value < Pow256(width)
  {
    var r := Dec(s, pos, 0);
    if r.Got? then Got(r.value % Pow256(width), r.next) else Thrown(r.next)
  }

  lemma WidthValues(width: nat)
    requires IsWidth(width)
    ensures 1 < Pow256(width) <= 0x1_0000_0000_0000_0000
    ensures exists k :: k > 0 && Pow256(width) * k == 0x1_0000_0000_0000_0000
  {
    PowerValues();
    if width == 8 {
      assert Pow256(width) * 1 == 0x1_0000_0000_0000_0000;
    } else if width == 4 {
      assert Pow256(width) * 0x1_0000_0000 == 0x1_0000_0000_0000_0000;
    } else if width == 2 {
      assert Pow256(width) * 0x1_0000_0000_0000 == 0x1_0000_0000_0000_0000;
    } else {
      assert Pow256(width) * 0x100_0000_0000_0000 == 0x1_0000_0000_0000_0000;
    }
  }

  lemma Distribute(p: nat, k: nat, q: nat, a: nat)
    ensures (p * k) * q + p * a == p * (k * q + a)
  {
    calc {
      p * (k * q + a);
      p * (k * q) + p * a;
      (p * k) * q + p * a;
    }
  }

  lemma ModOfMod(n: nat, m: nat, p: nat, k: nat)
    requires p > 0 && k > 0 && m > 0 && m == p * k
    ensures (n % m) % p == n % p
  {
    var q, r := n / m, n % m;
    Distribute(p, k, q, r / p);
    assert n == m * q + r && r == p * (r / p) + r % p;
    assert n == p * (k * q + r / p) + r % p;
    DivModUnique(n, p, k * q + r / p, r % p);
  }

  /** Cutting the accumulator down to the type is the same as cutting down the number. */
  lemma WrapToWidth(n: nat, width: nat)
    requires IsWidth(width)
    ensures Wrap(n) % Pow256(width) == n % Pow256(width)
  {
    WidthValues(width);
    var k :| k > 0 && Pow256(width) * k == 0x1_0000_0000_0000_0000;
    ModOfMod(n, 0x1_0000_0000_0000_0000, Pow256(width), k);
  }

  lemma SameCodeSameValue(t: seq<uint8>, range: nat)
    requires Terminated(t) && range > 0
    ensures t == Enc(Value(t) % range) <==> Value(t) < range
  {
    var n := Value(t);
    if n < range {
      DivModUnique(n, range, 0, n);
      EncOfValue(t);
    } else {
      ValueOfEnc(n % range);
    }
  }

  /** Every terminated string is read, up to its end and no further, as its value modulo the range
      of the type, and is the encoding of what was read exactly when its value is in that range. */
  lemma CanonicalExactlyInRange(s: seq<uint8>, pos: nat, end: nat, width: nat)
    requires IsWidth(width) && pos <= end <= |s| && Terminated(s[pos..end])
    ensures DecAs(s, pos, width) == Got(Value(s[pos..end]) % Pow256(width), end)
    ensures s[pos..end] == Enc(Value(s[pos..end]) % Pow256(width)) <==> Value(s[pos..end]) < Pow256(width)
  {
    var t := s[pos..end];
    DecTerminated(s, pos, end);
    WrapToWidth(Value(t), width);
    SameCodeSameValue(t, Pow256(width));
  }

  /** What is read back after a write is the number written, and what follows stays unread. */
  lemma RoundTrip(s: seq<uint8>, pos: nat, n: nat, width: nat)
    requires IsWidth(width) && n < Pow256(width) && At(s, pos, Enc(n))
    ensures DecAs(s, pos, width) == Got(n, pos + |Enc(n)|)
  {
    assert s[pos..pos + |Enc(n)|] == Enc(n);
    ValueOfEnc(n);
    DivModUnique(n, Pow256(width), 0, n);
    CanonicalExactlyInRange(s, pos, pos + |Enc(n)|, width);
  }

  lemma {:induction false} HeadsGrow(t: seq<uint8>, i: nat)
    requires i <= |t|
    ensures HeadValue(t[..i]) <= HeadValue(t)
    decreases |t|
  {
    if i < |t| {
      assert t[..|t| - 1][..i] == t[..i];
      HeadsGrow(t[..|t| - 1], i);
    } else {
      assert t[..i] == t;
    }
  }

  /** While a string whose value fits 64 bits is read, neither the shift nor the increment wraps. */
  lemma NoIntermediateWrap(t: seq<uint8>, i: nat)
    requires Terminated(t) && i < |t| && Value(t) < 0x1_0000_0000_0000_0000
    ensures var a := HeadValue(t[..i]);
            && 128 * a + t[i] % 128 < 0x1_0000_0000_0000_0000 && Shift(a, t[i]) == 128 * a + t[i] % 128
            && (i + 1 < |t| ==> Shift(a, t[i]) + 1 == HeadValue(t[..i + 1]) < 0x1_0000_0000_0000_0000)
  {
    var a, head := HeadValue(t[..i]), t[..|t| - 1];
    if i + 1 < |t| {
      assert head[..i + 1] == t[..i + 1] && t[..i + 1][..i] == t[..i];
      HeadsGrow(head, i + 1);
    }
    WrapUnique(128 * a, 0, 128 * a);
  }

  /** Eleven bytes can be read as zero, which is written in one. */
  lemma OverlongIsAccepted()
    ensures exists t: seq<uint8> :: Dec(t, 0, 0) == Got(0, |t|) && t != Enc(0)
  {
    var n: nat := 0x1_0000_0000_0000_0000;
    var t := Enc(n);
    ValueOfEnc(n);
    ValueOfEnc(0);
    assert t[0..|t|] == t;
    DecTerminated(t, 0, |t|);
  }

  // ---------- the loops ----------

  function Pow128(k: nat): (p: nat)
    ensures p > 0
  {
    if k == 0 then 1 else 128 * Pow128(k - 1)
  }

  function Reversed(t: seq<uint8>): (r: seq<uint8>)
    ensures |r| == |t|
  {
    if t == [] then [] else Reversed(t[1..]) + [t[0]]
  }

  /** The code word of which `len` groups, the least significant, have been produced. */
  function Rest(n: nat, len: nat): seq<uint8> {
    if len == 0 then Enc(n) else Head(n + 1)
  }

  function Group(n: nat, len: nat): uint8 {
    n % 128 + (if len != 0 then 0x80 else 0x00)
  }

  lemma RestStep(n: nat, len: nat)
    ensures n > 127 ==> Rest(n, len) == Rest(n / 128 - 1, len + 1) + [Group(n, len)]
    ensures n <= 127 ==> Rest(n, len) == [Group(n, len)]
  {
    assert Head(0) == [];
  }

  lemma {:induction false} ReversedSnoc(t: seq<uint8>, b: uint8)
    ensures Reversed(t + [b]) == [b] + Reversed(t)
  {
    if t != [] {
      ReversedSnoc(t[1..], b);
      assert (t + [b])[1..] == t[1..] + [b];
    } else {
      assert Reversed([b]) == Reversed([]) + [b];
    }
  }

  lemma MoveGroup(mid: seq<uint8>, g: uint8, groups: seq<uint8>)
    ensures (mid + [g]) + Reversed(groups) == mid + Reversed(groups + [g])
  {
    ReversedSnoc(groups, g);
  }

  /** `groups` are the last groups of `word`, least significant first; `n` is what is left. */
  ghost predicate Producing(word: seq<uint8>, n: nat, groups: seq<uint8>) {
    && |groups| < MAX_BYTES
    && n * Pow128(|groups|) < 0x1_0000_0000_0000_0000
    && word == Rest(n, |groups|) + Reversed(groups)
  }

  lemma MulLeft(a: nat, b: nat, p: nat)
    requires a <= b
    ensures a * p <= b * p
  {
  }

  lemma BufferSuffices(n: nat, len: nat)
    requires n > 127 && n * Pow128(len) < 0x1_0000_0000_0000_0000 && len < MAX_BYTES
    ensures len < 9
    ensures (n / 128 - 1) * Pow128(len + 1) < 0x1_0000_0000_0000_0000
  {
    var p := Pow128(len);
    assert Pow128(9) == 0x8000_0000_0000_0000;
    MulLeft(128, n, p);
    calc {
      (n / 128 - 1) * (128 * p);
      ((n / 128 - 1) * 128) * p;
    <= { MulLeft((n / 128 - 1) * 128, n, p); }
      n * p;
    }
  }

  lemma ProducingStart(n: uint64)
    ensures Producing(Enc(n), n, [])
  {
    assert Pow128(0) == 1 && Reversed([]) == [];
    ConcatAssociates(Enc(n), [], []);
  }

  lemma GroupStep(word: seq<uint8>, n: nat, groups: seq<uint8>)
    requires Producing(word, n, groups) && n > 127
    ensures Producing(word, n / 128 - 1, groups + [Group(n, |groups|)])
  {
    RestStep(n, |groups|);
    BufferSuffices(n, |groups|);
    MoveGroup(Rest(n / 128 - 1, |groups| + 1), Group(n, |groups|), groups);
  }

  lemma LastGroup(word: seq<uint8>, n: nat, groups: seq<uint8>)
    requires Producing(word, n, groups) && n <= 127
    ensures word == Reversed(groups + [Group(n, |groups|)])
  {
    RestStep(n, |groups|);
    ReversedSnoc(groups, Group(n, |groups|));
  }

  lemma LastIsFirst(t: seq<uint8>, i: nat)
    requires i < |t|
    ensures t[..i + 1] == t[..i] + [t[i]]
    ensures Reversed(t[..i + 1]) == [t[i]] + Reversed(t[..i])
  {
    assert t[..i + 1] == t[..i] + [t[i]];
    ReversedSnoc(t[..i], t[i]);
  }

  method WriteBackwards(stream: StreamVector, tmp: array<uint8>, last: nat)
    requires last < tmp.Length
    modifies stream`buffer
    ensures stream.buffer == old(stream.buffer) + Reversed(tmp[..last + 1])
  {
    var len := last;
    ghost var all := tmp[..last + 1];
    assert all[..last + 1] == all;
    while true
      invariant 0 <= len <= last && tmp[..last + 1] == all
      invariant old(stream.buffer) + Reversed(all) == stream.buffer + Reversed(all[..len + 1])
      decreases len
    {
      LastIsFirst(all, len);
      stream.Write([tmp[len]]);
      if len == 0 {
        break;
      }
      len := len - 1;
    }
    assert Reversed(all[..0]) == [];
  }

  /** The groups are produced least significant first into `tmp`, which they never overrun. */
  method ProduceGroups(tmp: array<uint8>, value: uint64) returns (last: nat)
    requires tmp.Length == MAX_BYTES
    modifies tmp
    ensures last < MAX_BYTES && Reversed(tmp[..last + 1]) == Enc(value)
  {
    var n: nat := value;
    var len := 0;
    ghost var groups := [];
    ProducingStart(value);
    while true
      invariant 0 <= len < MAX_BYTES && tmp[..len] == groups
      invariant Producing(Enc(value), n, groups)
      decreases n
    {
      tmp[len] := Group(n, len);
      assert tmp[..len + 1] == groups + [Group(n, len)];
      if n <= 0x7F {
        LastGroup(Enc(value), n, groups);
        return len;
      }
      GroupStep(Enc(value), n, groups);
      groups := groups + [Group(n, len)];
      n := n / 128 - 1;
      len := len + 1;
    }
  }

  /** The groups are produced and then written in reverse. */
  method Write(stream: StreamVector, value: uint64)
    modifies stream`buffer
    ensures stream.buffer == old(stream.buffer) + Enc(value)
    ensures |Enc(value)| <= 10
  {
    var tmp := new uint8[MAX_BYTES];
    var last := ProduceGroups(tmp, value);
    WriteBackwards(stream, tmp, last);
  }

  method Read(stream: StreamVector, width: nat) returns (r: Parsed<nat>)
    requires IsWidth(width)
    modifies stream`pos
    ensures r == DecAs(stream.buffer, old(stream.pos), width) && stream.pos == r.next
  {
    var n: uint64 := 0;
    while true
      invariant Dec(stream.buffer, old(stream.pos), 0) == Dec(stream.buffer, stream.pos, n)
      decreases |stream.buffer| - stream.pos
    {
      var b := stream.Read(1);
      if |b| != 1 {
        return Thrown(stream.pos);
      }
      n := Shift(n, b[0]);
      if b[0] < 0x80 {
        return Got(n % Pow256(width), stream.pos);
      }
      n := Wrap(n + 1);
    }
  }
}
