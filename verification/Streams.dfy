/** libraries/bkbase/src/stream.cpp and serialize/numeric.h: a byte vector with a read position,
    and fixed-width numbers on it. */
module Streams {
  import opened Bytes

  /** What a read of `n` bytes at `pos` yields: all of them, or as many as there are. */
  function Available(s: seq<uint8>, pos: nat, n: nat): seq<uint8> {
    if pos >= |s| then [] else s[pos..Min(pos + n, |s|)]
  }

  class StreamVector {
    var buffer: seq<uint8>
    var pos: nat

    constructor (bytes: seq<uint8>)
      ensures buffer == bytes && pos == 0
    {
      buffer, pos := bytes, 0;
    }

    method Write(bytes: seq<uint8>)
      modifies this`buffer
      ensures buffer == old(buffer) + bytes
    {
      buffer := buffer + bytes;
    }

    method Skip(size: nat)
      modifies this`pos
      ensures pos == if old(pos) + size <= |buffer| then old(pos) + size else |buffer|
    {
      pos := pos + size;
      if pos > |buffer| {
        pos := |buffer|;
      }
    }

    /** A short read is not an error here: it returns fewer bytes and stops at the end. */
    method Read(size: nat) returns (bytes: seq<uint8>)
      modifies this`pos
      ensures bytes == Available(buffer, old(pos), size)
      ensures pos == Min(old(pos) + size, |buffer|)
      ensures old(pos) + size <= |buffer| ==> |bytes| == size && pos == old(pos) + size
      ensures old(pos) <= |buffer| < old(pos) + size ==> |bytes| == |buffer| - old(pos) && pos == |buffer|
      ensures forall i :: 0 <= i < |bytes| ==> old(pos) + i < |buffer| && bytes[i] == buffer[old(pos) + i]
    {
      var start := pos;
      Skip(size);
      if start >= |buffer| || pos == start {
        return [];
      }
      bytes := buffer[start..pos];
    }
  }

  // ---------- fixed-width numbers ----------

  /** A number of `k` bytes at `pos`; a short read throws, with the stream at its end. */
  function DecNumber(s: seq<uint8>, pos: nat, k: nat): (r: Parsed<nat>)
    requires k > 0
    ensures r.Got? ==> r.value < Pow256(k)
    ensures r.Got? <==> pos + k <= |s|
  {
    if pos + k <= |s| then Got(FromLE(s[pos..pos + k]), pos + k) else Thrown(|s|)
  }

  /** Exactly the `k`-byte little-endian strings are read, each as the number it spells. */
  lemma NumberCanonical(s: seq<uint8>, pos: nat, k: nat)
    requires k > 0
    ensures var r := DecNumber(s, pos, k);
            r.Got? ==> At(s, pos, LE(r.value, k)) && r.next == pos + k
  {
    if pos + k <= |s| {
      LEOfFromLE(s[pos..pos + k]);
    }
  }

  lemma NumberRoundTrip(s: seq<uint8>, pos: nat, n: nat, k: nat)
    requires k > 0 && n < Pow256(k)
    requires At(s, pos, LE(n, k))
    ensures DecNumber(s, pos, k) == Got(n, pos + k)
  {
    LEFits(n, k);
  }

  method WriteNumber(stream: StreamVector, n: nat, k: nat)
    requires k > 0 && n < Pow256(k)
    modifies stream`buffer
    ensures stream.buffer == old(stream.buffer) + LE(n, k)
  {
    stream.Write(LE(n, k));
  }

  method ReadNumber(stream: StreamVector, k: nat) returns (r: Parsed<nat>)
    requires k > 0
    modifies stream`pos
    ensures r == DecNumber(stream.buffer, old(stream.pos), k) && stream.pos == r.next
  {
    var start := stream.pos;
    var bytes := stream.Read(k);
    if |bytes| != k {
      return Thrown(stream.pos);
    }
    assert bytes == stream.buffer[start..start + k];
    r := Got(FromLE(bytes), stream.pos);
  }
}
