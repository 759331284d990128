/** libraries/bkbase/include/bkbase/serialize/vector.h: vectors of bytes and vectors of objects,
    both read in chunks. */
module Vectors {
  import opened Bytes
  import opened Streams
  import CompactSize

  // ---------- codecs ----------

  /** How objects of one type are written and read, and which of them survive the way there and
      back. */
  datatype Codec<!T> = Codec(
    enc: T -> seq<uint8>,
    dec: (seq<uint8>, nat) -> Parsed<T>,
    valid: T -> bool)

  /** What a successful read says. A strict codec reads only what its writer writes; any other
      does so unless it has reached the end of the stream. */
  ghost predicate FaithfulAt<T>(c: Codec<T>, strict: bool, s: seq<uint8>, pos: nat) {
    var r := c.dec(s, pos);
    r.Got? ==>
      && pos < |s| && r.next <= |s| && c.valid(r.value)
      && (strict || r.next < |s| ==> At(s, pos, c.enc(r.value)) && r.next == pos + |c.enc(r.value)|)
  }

  ghost predicate Faithful<T>(c: Codec<T>, strict: bool) {
    forall s: seq<uint8>, pos: nat :: FaithfulAt(c, strict, s, pos)
  }

  ghost predicate AcceptsAt<T(!new)>(c: Codec<T>, s: seq<uint8>, pos: nat) {
    forall v: T :: c.valid(v) && At(s, pos, c.enc(v)) ==> c.dec(s, pos) == Got(v, pos + |c.enc(v)|)
  }

  ghost predicate Accepts<T(!new)>(c: Codec<T>) {
    forall s: seq<uint8>, pos: nat :: AcceptsAt(c, s, pos)
  }

  // ---------- vectors of bytes ----------

  function EncBytes(v: seq<uint8>): seq<uint8> {
    CompactSize.Enc(|v|) + v
  }

  function Zeros(n: nat): (z: seq<uint8>)
    ensures |z| == n
  {
    seq(n, i => 0)
  }

  /** `n` bytes, of which those the stream no longer has are zero. */
  function Padded(v: seq<uint8>, n: nat): (r: seq<uint8>)
    requires |v| <= n
    ensures |r| == n
  {
    v + Zeros(n - |v|)
  }

  /** The number of bytes read is not checked: a truncated vector is filled up, not refused. */
  function DecBytes(s: seq<uint8>, pos: nat): (r: Parsed<seq<uint8>>) {
    var (n, p) :- CompactSize.Dec(s, pos);
    Got(Padded(Available(s, p, n), n), Min(p + n, |s|))
  }

  predicate ValidBytes(v: seq<uint8>) {
    |v| <= CompactSize.COMPACT_SIZE_MAX
  }

  function Scripts(): Codec<seq<uint8>> {
    Codec(EncBytes, DecBytes, ValidBytes)
  }

  lemma PaddedFull(v: seq<uint8>)
    ensures Padded(v, |v|) == v
  {
    assert v + Zeros(0) == v;
  }

  /** Byte for byte: the bytes that are there, and zeros for those that are not. */
  lemma BytesInPlace(s: seq<uint8>, pos: nat)
    ensures DecBytes(s, pos).Got? <==> CompactSize.Dec(s, pos).Got?
    ensures DecBytes(s, pos).Got? ==>
      var r, n, p := DecBytes(s, pos), CompactSize.Dec(s, pos).value, CompactSize.Dec(s, pos).next;
      && |r.value| == n && r.next == (if p + n <= |s| then p + n else |s|)
      && forall i :: 0 <= i < n ==> r.value[i] == if p + i < |s| then s[p + i] else 0
  {
  }

  lemma CompleteBytes(s: seq<uint8>, pos: nat, n: nat, p: nat)
    requires CompactSize.Dec(s, pos) == Got(n, p) && p + n <= |s|
    ensures DecBytes(s, pos) == Got(s[p..p + n], p + n)
  {
    PaddedFull(s[p..p + n]);
  }

  /** A byte vector that ends before the stream does was complete, and canonical; one that was cut
      short leaves the stream at its end. */
  lemma BytesFaithful(s: seq<uint8>, pos: nat)
    ensures FaithfulAt(Scripts(), false, s, pos)
  {
    CompactSize.Canonical(s, pos);
    var r := DecBytes(s, pos);
    if r.Got? {
      var c := CompactSize.Dec(s, pos);
      if c.next + c.value <= |s| {
        CompleteBytes(s, pos, c.value, c.next);
        AtConcat(s, pos, CompactSize.Enc(|r.value|), r.value);
      }
    }
  }

  lemma BytesRoundTrip(s: seq<uint8>, pos: nat, v: seq<uint8>)
    requires |v| <= 0x0200_0000
    requires At(s, pos, EncBytes(v))
    ensures DecBytes(s, pos) == Got(v, pos + |EncBytes(v)|)
  {
    var e := CompactSize.Enc(|v|);
    assert At(s, pos, e) && At(s, pos + |e|, v) by {
      AtConcat(s, pos, e, v);
    }
    assert CompactSize.Dec(s, pos) == Got(|v|, pos + |e|) by {
      CompactSize.RoundTrip(s, pos, |v|);
    }
    CompleteBytes(s, pos, |v|, pos + |e|);
  }

  lemma BytesLaws()
    ensures Faithful(Scripts(), false) && Accepts(Scripts())
  {
    forall s: seq<uint8>, pos: nat
      ensures FaithfulAt(Scripts(), false, s, pos) && AcceptsAt(Scripts(), s, pos)
    {
      BytesFaithful(s, pos);
      forall v: seq<uint8> | ValidBytes(v) && At(s, pos, EncBytes(v))
        ensures DecBytes(s, pos) == Got(v, pos + |EncBytes(v)|)
      {
        BytesRoundTrip(s, pos, v);
      }
    }
  }

  method WriteBytes(stream: StreamVector, v: seq<uint8>)
    requires |v| < 0x1_0000_0000_0000_0000
    modifies stream`buffer
    ensures stream.buffer == old(stream.buffer) + EncBytes(v)
  {
    CompactSize.Write(stream, |v|);
    if v != [] {
      stream.Write(v);
    }
  }

  lemma ReadChunk(s: seq<uint8>, p: nat, i: nat, blk: nat)
    requires p <= |s|
    ensures var got := Available(s, Min(p + i, |s|), blk);
            && |Available(s, p, i)| <= i && |got| <= blk && |Available(s, p, i + blk)| <= i + blk
            && Padded(Available(s, p, i), i) + got + Zeros(blk - |got|) == Padded(Available(s, p, i + blk), i + blk)
  {
    var some, got, more := Available(s, p, i), Available(s, Min(p + i, |s|), blk), Available(s, p, i + blk);
    if p + i >= |s| {
      assert got == [] && more == some;
      assert Zeros(i - |some|) + Zeros(blk) == Zeros(i + blk - |some|);
      ConcatAssociates(some, Zeros(i - |some|), Zeros(blk));
      ConcatAssociates(Padded(some, i), [], []);
    } else {
      PaddedFull(some);
      assert more == some + got;
    }
  }

  /** Chunk by chunk, the vector is resized and what there is is read into it. */
  method FillBytes(stream: StreamVector, n: nat) returns (v: seq<uint8>)
    requires stream.pos <= |stream.buffer|
    modifies stream`pos
    ensures v == Padded(Available(stream.buffer, old(stream.pos), n), n)
    ensures stream.pos == Min(old(stream.pos) + n, |stream.buffer|)
  {
    v := [];
    var i := 0;
    ghost var p := stream.pos;
    while i < n
      invariant 0 <= i <= n
      invariant |Available(stream.buffer, p, i)| <= i && v == Padded(Available(stream.buffer, p, i), i)
      invariant stream.pos == Min(p + i, |stream.buffer|)
    {
      var blk := Min(n - i, 5000000);
      ReadChunk(stream.buffer, p, i, blk);
      var got := stream.Read(blk);
      v := v + got + Zeros(blk - |got|);
      i := i + blk;
    }
  }

  method ReadBytes(stream: StreamVector) returns (r: Parsed<seq<uint8>>)
    modifies stream`pos
    ensures r == DecBytes(stream.buffer, old(stream.pos)) && stream.pos == r.next
  {
    var size := CompactSize.Read(stream);
    if size.Thrown? {
      return Thrown(size.next);
    }
    var v := FillBytes(stream, size.value);
    r := Got(v, stream.pos);
  }

  // ---------- vectors of objects ----------

  function EncItems<T>(c: Codec<T>, items: seq<T>): seq<uint8> {
    if items == [] then [] else c.enc(items[0]) + EncItems(c, items[1..])
  }

  function DecItems<T>(c: Codec<T>, n: nat, s: seq<uint8>, pos: nat): (r: Parsed<seq<T>>)
    ensures r.Got? ==> |r.value| == n
  {
    if n == 0 then Got([], pos)
    else
      var (first, p) :- c.dec(s, pos);
      var (rest, q) :- DecItems(c, n - 1, s, p);
      Got([first] + rest, q)
  }

  function EncVector<T>(c: Codec<T>, items: seq<T>): seq<uint8> {
    CompactSize.Enc(|items|) + EncItems(c, items)
  }

  function DecVector<T>(c: Codec<T>, s: seq<uint8>, pos: nat): (r: Parsed<seq<T>>) {
    var (n, p) :- CompactSize.Dec(s, pos);
    DecItems(c, n, s, p)
  }

  ghost predicate ValidVector<T>(c: Codec<T>, items: seq<T>) {
    |items| <= CompactSize.COMPACT_SIZE_MAX && forall x :: x in items ==> c.valid(x)
  }

  /** The elements are read one behind the other: element `k` from `at[k]` to `at[k + 1]`. */
  lemma {:induction false} ItemsInOrder<T>(c: Codec<T>, n: nat, s: seq<uint8>, pos: nat) returns (at: seq<nat>)
    requires DecItems(c, n, s, pos).Got?
    ensures var r := DecItems(c, n, s, pos);
            && |at| == n + 1 && at[0] == pos && at[n] == r.next
            && forall k :: 0 <= k < n ==> c.dec(s, at[k]) == Got(r.value[k], at[k + 1])
    decreases n
  {
    if n == 0 {
      at := [pos];
    } else {
      var rest := ItemsInOrder(c, n - 1, s, c.dec(s, pos).next);
      at := [pos] + rest;
    }
  }

  /** A vector of elements: as many as its length says, one behind the other. */
  lemma VectorInPlace<T>(c: Codec<T>, s: seq<uint8>, pos: nat) returns (at: seq<nat>)
    requires DecVector(c, s, pos).Got?
    ensures var r, size := DecVector(c, s, pos), CompactSize.Dec(s, pos);
            && size.Got? && |r.value| == size.value && |at| == size.value + 1
            && at[0] == size.next && at[size.value] == r.next
            && forall k :: 0 <= k < size.value ==> c.dec(s, at[k]) == Got(r.value[k], at[k + 1])
  {
    at := ItemsInOrder(c, CompactSize.Dec(s, pos).value, s, CompactSize.Dec(s, pos).next);
  }

  lemma {:induction false} ItemsFaithful<T>(c: Codec<T>, strict: bool, n: nat, s: seq<uint8>, pos: nat)
    requires Faithful(c, strict) && pos <= |s|
    ensures var r := DecItems(c, n, s, pos);
            r.Got? ==>
              && r.next <= |s| && (forall x :: x in r.value ==> c.valid(x))
              && (strict || r.next < |s| ==>
                    At(s, pos, EncItems(c, r.value)) && r.next == pos + |EncItems(c, r.value)|)
    decreases n
  {
    var r := DecItems(c, n, s, pos);
    if n > 0 && r.Got? {
      assert FaithfulAt(c, strict, s, pos);
      var first := c.dec(s, pos);
      ItemsFaithful(c, strict, n - 1, s, first.next);
      var rest := DecItems(c, n - 1, s, first.next);
      assert r.value == [first.value] + rest.value && r.value[1..] == rest.value;
      if n > 1 {
        assert FaithfulAt(c, strict, s, first.next);
      } else {
        assert rest == Got([], first.next);
      }
      AtConcat(s, pos, c.enc(first.value), EncItems(c, rest.value));
    }
  }

  lemma {:induction false} ItemsRoundTrip<T(!new)>(c: Codec<T>, items: seq<T>, s: seq<uint8>, pos: nat)
    requires Accepts(c) && forall x :: x in items ==> c.valid(x)
    requires At(s, pos, EncItems(c, items))
    ensures DecItems(c, |items|, s, pos) == Got(items, pos + |EncItems(c, items)|)
    decreases |items|
  {
    if items != [] {
      AtConcat(s, pos, c.enc(items[0]), EncItems(c, items[1..]));
      assert AcceptsAt(c, s, pos);
      ItemsRoundTrip(c, items[1..], s, pos + |c.enc(items[0])|);
      assert items == [items[0]] + items[1..];
    }
  }

  /** The same, for a vector read whole. */
  ghost predicate VectorFaithfulAt<T>(c: Codec<T>, strict: bool, s: seq<uint8>, pos: nat) {
    var r := DecVector(c, s, pos);
    r.Got? ==>
      && pos < |s| && r.next <= |s| && ValidVector(c, r.value)
      && (strict || r.next < |s| ==>
            At(s, pos, EncVector(c, r.value)) && r.next == pos + |EncVector(c, r.value)|)
  }

  /** A vector is as faithful as its elements. */
  lemma VectorFaithful<T>(c: Codec<T>, strict: bool, s: seq<uint8>, pos: nat)
    requires Faithful(c, strict)
    ensures VectorFaithfulAt(c, strict, s, pos)
  {
    CompactSize.Canonical(s, pos);
    var size := CompactSize.Dec(s, pos);
    if size.Got? {
      ItemsFaithful(c, strict, size.value, s, size.next);
      var r := DecVector(c, s, pos);
      if r.Got? {
        AtConcat(s, pos, CompactSize.Enc(size.value), EncItems(c, r.value));
      }
    }
  }

  lemma VectorRoundTrip<T(!new)>(c: Codec<T>, items: seq<T>, s: seq<uint8>, pos: nat)
    requires Accepts(c) && ValidVector(c, items)
    requires At(s, pos, EncVector(c, items))
    ensures DecVector(c, s, pos) == Got(items, pos + |EncVector(c, items)|)
  {
    AtConcat(s, pos, CompactSize.Enc(|items|), EncItems(c, items));
    CompactSize.RoundTrip(s, pos, |items|);
    ItemsRoundTrip(c, items, s, pos + |CompactSize.Enc(|items|)|);
  }

  lemma {:induction false} EncItemsSnoc<T>(c: Codec<T>, items: seq<T>, i: nat)
    requires i < |items|
    ensures EncItems(c, items[..i + 1]) == EncItems(c, items[..i]) + c.enc(items[i])
    decreases i
  {
    var some := items[..i + 1];
    assert some[0] == items[0];
    if i == 0 {
      assert some[1..] == [] && items[..0] == [];
      assert EncItems(c, some) == c.enc(items[0]) + [];
    } else {
      EncItemsSnoc(c, items[1..], i - 1);
      assert some[1..] == items[1..][..i] && items[..i][1..] == items[1..][..i - 1];
    }
  }

  /** The result `r`, with `done` in front of its value. */
  function After<T>(done: seq<T>, r: Parsed<seq<T>>): Parsed<seq<T>> {
    match r
    case Got(v, next) => Got(done + v, next)
    case Thrown(next) => Thrown(next)
  }

  lemma AfterStep<T>(c: Codec<T>, done: seq<T>, n: nat, s: seq<uint8>, pos: nat)
    requires n > 0
    ensures var item := c.dec(s, pos);
            After(done, DecItems(c, n, s, pos)) ==
              if item.Got? then After(done + [item.value], DecItems(c, n - 1, s, item.next)) else Thrown(item.next)
  {
    var item := c.dec(s, pos);
    if item.Got? {
      var rest := DecItems(c, n - 1, s, item.next);
      if rest.Got? {
        assert done + ([item.value] + rest.value) == (done + [item.value]) + rest.value;
      }
    }
  }

  // ---------- the loops over elements ----------

  /** Reading a vector is under way: `v` has been read, `n` elements are to come, and with them it
      will be `whole`. */
  ghost predicate Filling<T>(c: Codec<T>, whole: Parsed<seq<T>>, v: seq<T>, n: nat, s: seq<uint8>, pos: nat) {
    whole == After(v, DecItems(c, n, s, pos))
  }

  datatype Stage<T> = Stage(v: seq<T>, n: nat, pos: nat)

  /** `stages` are the stages at which reading `whole` from `s` can be. The loops only know that they
      are at one of them. */
  ghost predicate Stages<T(!new)>(c: Codec<T>, whole: Parsed<seq<T>>, s: seq<uint8>, stages: iset<Stage<T>>) {
    forall v: seq<T>, n: nat, pos: nat {:trigger Filling(c, whole, v, n, s, pos)} ::
      Stage(v, n, pos) in stages <==> Filling(c, whole, v, n, s, pos)
  }

  lemma FillStart<T(!new)>(c: Codec<T>, n: nat, s: seq<uint8>, pos: nat) returns (stages: iset<Stage<T>>)
    ensures Stages(c, DecItems(c, n, s, pos), s, stages) && Stage([], n, pos) in stages
  {
    var whole := DecItems(c, n, s, pos);
    stages := iset st: Stage<T> | Filling(c, whole, st.v, st.n, s, st.pos);
    assert whole.Got? ==> [] + whole.value == whole.value;
    assert Filling(c, whole, [], n, s, pos);
  }

  /** One element more, or the exception that ends it all. */
  lemma FillStep<T(!new)>(c: Codec<T>, whole: Parsed<seq<T>>, s: seq<uint8>, stages: iset<Stage<T>>, st: Stage<T>)
    requires Stages(c, whole, s, stages) && st in stages && st.n > 0
    ensures var item := c.dec(s, st.pos);
            if item.Got? then Stage(st.v + [item.value], st.n - 1, item.next) in stages else whole == Thrown(item.next)
  {
    assert Filling(c, whole, st.v, st.n, s, st.pos);
    AfterStep(c, st.v, st.n, s, st.pos);
    var item := c.dec(s, st.pos);
    assert item.Got? ==> Filling(c, whole, st.v + [item.value], st.n - 1, s, item.next);
  }

  lemma FillEnd<T(!new)>(c: Codec<T>, whole: Parsed<seq<T>>, s: seq<uint8>, stages: iset<Stage<T>>, st: Stage<T>)
    requires Stages(c, whole, s, stages) && st in stages && st.n == 0
    ensures whole == Got(st.v, st.pos)
  {
    assert Filling(c, whole, st.v, st.n, s, st.pos);
    assert st.v + [] == st.v;
  }

  /** Replacing the default at `i` extends what has been read. */
  lemma FillPlace<T>(v: seq<T>, i: nat, x: T)
    requires i < |v|
    ensures v[i := x][..i + 1] == v[..i] + [x]
  {
  }

  /** Writing a vector behind `start` is under way: the first `i` elements have been written. */
  ghost predicate Writing<T>(c: Codec<T>, start: seq<uint8>, items: seq<T>, i: nat, buffer: seq<uint8>)
    requires i <= |items|
  {
    buffer == start + EncItems(c, items[..i])
  }

  lemma WriteStep<T>(c: Codec<T>, start: seq<uint8>, items: seq<T>, i: nat, buffer: seq<uint8>)
    requires i < |items| && Writing(c, start, items, i, buffer)
    ensures Writing(c, start, items, i + 1, buffer + c.enc(items[i]))
  {
    EncItemsSnoc(c, items, i);
    ConcatAssociates(start, EncItems(c, items[..i]), c.enc(items[i]));
  }

  lemma WriteStart<T>(c: Codec<T>, start: seq<uint8>, items: seq<T>)
    ensures Writing(c, start, items, 0, start)
  {
    assert EncItems(c, items[..0]) == [];
    ConcatAssociates(start, [], []);
  }

  lemma WriteEnd<T>(c: Codec<T>, start: seq<uint8>, items: seq<T>, buffer: seq<uint8>)
    requires Writing(c, start + CompactSize.Enc(|items|), items, |items|, buffer)
    ensures buffer == start + EncVector(c, items)
  {
    assert items[..|items|] == items;
    ConcatAssociates(start, CompactSize.Enc(|items|), EncItems(c, items));
  }
}
