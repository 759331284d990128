/** libraries/bkbase/include/bkbase/serialize/compact_size.h */
module CompactSize {
  import opened Bytes
  import opened Streams

  const COMPACT_SIZE_MAX := 0x0200_0000

  /** The marker byte of a length that does not fit one byte; 253, 254 and 255 announce 2, 4 and 8
      bytes, for lengths from 253, 2^16 and 2^32 on. */
  function Marker(n: nat): uint8 {
    if n <= 0xFFFF then 253 else if n <= 0xFFFF_FFFF then 254 else 255
  }

  function Width(marker: uint8): nat {
    if marker <= 253 then 2 else if marker == 254 then 4 else 8
  }

  function Least(marker: uint8): nat {
    if marker <= 253 then 253 else if marker == 254 then 0x1_0000 else 0x1_0000_0000
  }

  function Enc(n: nat): (e: seq<uint8>)
    ensures 1 <= |e| <= 9
  {
    if n < 253 then [n] else [Marker(n)] + LE(n, Width(Marker(n)))
  }

  function Dec(s: seq<uint8>, pos: nat): (r: Parsed<nat>)
    ensures r.next <= |s|
    ensures r.Got? ==> r.value <= COMPACT_SIZE_MAX
  {
    if pos >= |s| then Thrown(|s|)
    else if s[pos] < 253 then Got(s[pos], pos + 1)
    else
      var (n, next) :- DecNumber(s, pos + 1, Width(s[pos]));
      if n < Least(s[pos]) || n > COMPACT_SIZE_MAX then Thrown(next) else Got(n, next)
  }

  /** Whatever is accepted is the canonical encoding of the value returned. */
  lemma Canonical(s: seq<uint8>, pos: nat)
    ensures var r := Dec(s, pos);
            r.Got? ==> At(s, pos, Enc(r.value)) && r.next == pos + |Enc(r.value)|
  {
    var r := Dec(s, pos);
    if r.Got? {
      assert s[pos..pos + 1] == [s[pos]];
      if s[pos] >= 253 {
        PowerValues();
        var k := Width(s[pos]);
        NumberCanonical(s, pos + 1, k);
        AtConcat(s, pos, [s[pos]], LE(r.value, k));
      }
    }
  }

  /** What stands where a marked length was written. */
  lemma ReadMarked(s: seq<uint8>, pos: nat, n: uint64)
    requires n >= 253 && At(s, pos, Enc(n))
    ensures pos < |s| && s[pos] == Marker(n)
    ensures var k := Width(Marker(n)); DecNumber(s, pos + 1, k) == Got(n, pos + 1 + k)
  {
    PowerValues();
    var m, k := Marker(n), Width(Marker(n));
    AtConcat(s, pos, [m], LE(n, k));
    assert s[pos..pos + 1][0] == m;
    NumberRoundTrip(s, pos + 1, n, k);
  }

  lemma RoundTrip(s: seq<uint8>, pos: nat, n: uint64)
    requires At(s, pos, Enc(n))
    requires n <= 0x0200_0000
    ensures Dec(s, pos) == Got(n, pos + |Enc(n)|)
  {
    if n < 253 {
      assert s[pos..pos + 1][0] == n;
    } else {
      ReadMarked(s, pos, n);
    }
  }

  /** A value above the limit is written, but what was written is refused when read back. */
  lemma TooLargeIsRefused(s: seq<uint8>, pos: nat, n: uint64)
    requires At(s, pos, Enc(n))
    requires n > 0x0200_0000
    ensures Dec(s, pos).Thrown?
  {
    ReadMarked(s, pos, n);
  }

  /** The accepted streams are exactly those that start with the encoding of a value up to the
      limit; that value is the only one, and exactly its encoding is consumed. */
  lemma AcceptsExactly(s: seq<uint8>, pos: nat)
    ensures Dec(s, pos).Got? <==> exists n: uint64 :: n <= 0x0200_0000 && At(s, pos, Enc(n))
    ensures forall n: uint64 :: n <= 0x0200_0000 && At(s, pos, Enc(n)) ==>
      Dec(s, pos) == Got(n, pos + |Enc(n)|)
  {
    Canonical(s, pos);
    forall n: uint64 | n <= 0x0200_0000 && At(s, pos, Enc(n))
      ensures Dec(s, pos) == Got(n, pos + |Enc(n)|)
    {
      RoundTrip(s, pos, n);
    }
  }

  // ---------- byte for byte ----------

  /** What each first byte announces: itself, two bytes for a number from 253 on, four for one from
      2^16 to 2^25, or nothing that is accepted. */
  lemma ReadByteForByte(s: seq<uint8>, pos: nat)
    ensures pos >= |s| ==> Dec(s, pos).Thrown?
    ensures pos < |s| && s[pos] < 0xFD ==> Dec(s, pos) == Got(s[pos], pos + 1)
    ensures pos < |s| && s[pos] == 0xFD ==>
      if pos + 3 <= |s| && Spelled2(s, pos + 1) >= 253 then Dec(s, pos) == Got(Spelled2(s, pos + 1), pos + 3)
      else Dec(s, pos).Thrown?
    ensures pos < |s| && s[pos] == 0xFE ==>
      if pos + 5 <= |s| && 0x1_0000 <= Spelled4(s, pos + 1) <= 0x0200_0000
      then Dec(s, pos) == Got(Spelled4(s, pos + 1), pos + 5) else Dec(s, pos).Thrown?
    ensures pos < |s| && s[pos] == 0xFF ==> Dec(s, pos).Thrown?
  {
    if pos + 3 <= |s| {
      FromLE2(s, pos + 1);
    }
    if pos + 5 <= |s| {
      FromLE4(s, pos + 1);
    }
  }

  /** The bytes of a number, by its size. */
  lemma WrittenByteForByte(n: uint64)
    ensures n < 253 ==> Enc(n) == [n]
    ensures 253 <= n <= 0xFFFF ==> Enc(n) == [0xFD, n % 0x100, n / 0x100]
    ensures 0x1_0000 <= n <= 0xFFFF_FFFF ==>
      Enc(n) == [0xFE, n % 0x100, n / 0x100 % 0x100, n / 0x1_0000 % 0x100, n / 0x100_0000]
    ensures n > 0xFFFF_FFFF ==> |Enc(n)| == 9 && Enc(n)[0] == 0xFF && Spelled8(Enc(n), 1) == n
  {
    if 253 <= n <= 0xFFFF {
      LE2(n);
    } else if 0x1_0000 <= n <= 0xFFFF_FFFF {
      LE4(n);
    } else if n > 0xFFFF_FFFF {
      PowerValues();
      FromLE8(Enc(n), 1);
      assert Enc(n)[1..9] == LE(n, 8);
      LEFits(n, 8);
    }
  }

  // ---------- the methods ----------

  method WriteTagged(stream: StreamVector, tag: uint8, n: nat, k: nat)
    requires k > 0 && n < Pow256(k)
    modifies stream`buffer
    ensures stream.buffer == old(stream.buffer) + ([tag] + LE(n, k))
  {
    PowerValues();
    WriteNumber(stream, tag, 1);
    assert LE(tag, 1) == [tag];
    WriteNumber(stream, n, k);
  }

  method Write(stream: StreamVector, n: uint64)
    modifies stream`buffer
    ensures stream.buffer == old(stream.buffer) + Enc(n)
    ensures n < 253 ==> stream.buffer == old(stream.buffer) + [n]
    ensures 253 <= n <= 0xFFFF ==> stream.buffer == old(stream.buffer) + [0xFD, n % 0x100, n / 0x100]
    ensures 0x1_0000 <= n <= 0xFFFF_FFFF ==>
      stream.buffer == old(stream.buffer) + [0xFE, n % 0x100, n / 0x100 % 0x100, n / 0x1_0000 % 0x100, n / 0x100_0000]
  {
    PowerValues();
    WrittenByteForByte(n);
    if n < 253 {
      WriteNumber(stream, n, 1);
      assert LE(n, 1) == [n];
    } else if n <= 0xFFFF {
      WriteTagged(stream, 253, n, 2);
    } else if n <= 0xFFFF_FFFF {
      WriteTagged(stream, 254, n, 4);
    } else {
      WriteTagged(stream, 255, n, 8);
    }
  }

  method Read(stream: StreamVector) returns (r: Parsed<nat>)
    modifies stream`pos
    ensures r == Dec(stream.buffer, old(stream.pos)) && stream.pos == r.next
  {
    var first := stream.Read(1);
    if |first| != 1 {
      return Thrown(stream.pos);
    }
    if first[0] < 253 {
      return Got(first[0], stream.pos);
    }
    if first[0] == 253 {
      r := ReadNumber(stream, 2);
      if r.Got? && r.value < 253 {
        r := Thrown(r.next);
      }
    } else if first[0] == 254 {
      r := ReadNumber(stream, 4);
      if r.Got? && (r.value < 0x1_0000 || r.value > COMPACT_SIZE_MAX) {
        r := Thrown(r.next);
      }
    } else {
      r := ReadNumber(stream, 8);
      if r.Got? && (r.value < 0x1_0000_0000 || r.value > COMPACT_SIZE_MAX) {
        r := Thrown(r.next);
      }
    }
  }
}
