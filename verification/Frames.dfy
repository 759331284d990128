/** libraries/helper/src/block_file.cpp, `BlockFile::_NextBlock`: finding the blocks in the bytes of
    the block files. A block is stored as a magic number, its length and its bytes; anything may
    stand between two blocks. */
module Frames {
  import opened Bytes

  const MAGIC: seq<uint8> := [0xF9, 0xBE, 0xB4, 0xD9]
  const MIN_BLOCK := 80

  predicate MagicAt(s: seq<uint8>, i: nat) {
    i + 4 <= |s| && s[i] == 0xF9 && s[i + 1] == 0xBE && s[i + 2] == 0xB4 && s[i + 3] == 0xD9
  }

  /** What follows the first magic number in `s`; nothing, if there is none. */
  function AfterMagic(s: seq<uint8>): (r: seq<uint8>)
    ensures |r| <= |s|
  {
    if |s| < 4 then [] else if MagicAt(s, 0) then s[4..] else AfterMagic(s[1..])
  }

  /** The scan stops right after a magic number that no other precedes. */
  lemma {:induction false} AfterFirstMagic(s: seq<uint8>, i: nat)
    requires MagicAt(s, i) && forall j :: 0 <= j < i ==> !MagicAt(s, j)
    ensures AfterMagic(s) == s[i + 4..]
  {
    if i > 0 {
      assert !MagicAt(s, 0);
      forall j | 0 <= j < i - 1
        ensures !MagicAt(s[1..], j)
      {
        assert !MagicAt(s, j + 1);
      }
      AfterFirstMagic(s[1..], i - 1);
    }
  }

  lemma {:induction false} NoMagicNoRest(s: seq<uint8>)
    requires forall j :: 0 <= j < |s| ==> !MagicAt(s, j)
    ensures AfterMagic(s) == []
  {
    if |s| >= 4 {
      assert !MagicAt(s, 0);
      forall j | 0 <= j < |s| - 1
        ensures !MagicAt(s[1..], j)
      {
        assert !MagicAt(s, j + 1);
      }
      NoMagicNoRest(s[1..]);
    }
  }

  function Length(s: seq<uint8>): nat
    requires |s| >= 4
  {
    FromLE(s[..4])
  }

  /** A block and what follows it, or no block at all. */
  datatype Found = Frame(payload: seq<uint8>, rest: seq<uint8>) | Exhausted

  /** One search: bad magic, too small a length and too little data are passed over. */
  function NextFrame(s: seq<uint8>): (r: Found)
    ensures r.Frame? ==> |r.rest| < |s|
    decreases |s|
  {
    var r := AfterMagic(s);
    if |r| < 4 then Exhausted
    else if Length(r) < MIN_BLOCK then NextFrame(r[4..])
    else if 4 + Length(r) > |r| then Exhausted
    else Frame(r[4..4 + Length(r)], r[4 + Length(r)..])
  }

  /** The blocks of one buffer. */
  function Blocks(s: seq<uint8>): seq<seq<uint8>>
    decreases |s|
  {
    match NextFrame(s)
    case Exhausted => []
    case Frame(payload, rest) => [payload] + Blocks(rest)
  }

  /** All the blocks of the files, each file scanned by itself. */
  function AllBlocks(files: seq<seq<uint8>>): seq<seq<uint8>> {
    FlatMap(Blocks, files)
  }

  /** The blocks that follow when `s` is still to be scanned and `files` are still to come. */
  function BlocksFrom(s: seq<uint8>, files: seq<seq<uint8>>): seq<seq<uint8>>
    decreases |files|, |s|
  {
    match NextFrame(s)
    case Frame(payload, rest) => [payload] + BlocksFrom(rest, files)
    case Exhausted => if files == [] then [] else BlocksFrom(files[0], files[1..])
  }

  lemma {:induction false} BlocksFromAll(s: seq<uint8>, files: seq<seq<uint8>>)
    ensures BlocksFrom(s, files) == Blocks(s) + AllBlocks(files)
    decreases |files|, |s|
  {
    match NextFrame(s)
    case Frame(payload, rest) =>
      BlocksFromAll(rest, files);
      ConcatAssociates([payload], Blocks(rest), AllBlocks(files));
    case Exhausted =>
      ConcatAssociates(AllBlocks(files), [], []);
      if files != [] {
        BlocksFromAll(files[0], files[1..]);
      }
  }

  lemma FromNext(s: seq<uint8>, files: seq<seq<uint8>>)
    ensures var r := NextFrame(s);
            BlocksFrom(s, files) ==
              if r.Frame? then [r.payload] + BlocksFrom(r.rest, files)
              else if files == [] then [] else BlocksFrom(files[0], files[1..])
    ensures NextFrame([]) == Exhausted
  {
  }

  lemma NextFrameStep(s: seq<uint8>)
    ensures var r := AfterMagic(s);
            NextFrame(s) ==
              if |r| < 4 then Exhausted
              else if Length(r) < MIN_BLOCK then NextFrame(r[4..])
              else if 4 + Length(r) > |r| then Exhausted
              else Frame(r[4..4 + Length(r)], r[4 + Length(r)..])
  {
  }

  // ---------- the scanner ----------

  /** `files` are the buffers the loader will still hand over, in order, before it reports the end. */
  class BlockFile {
    var files: seq<seq<uint8>>
    var filePosition: nat
    var fileBuffer: seq<uint8>

    ghost predicate Valid()
      reads this
    {
      filePosition <= |fileBuffer|
    }

    /** The bytes not yet scanned. */
    ghost function Unread(): seq<uint8>
      requires Valid()
      reads this
    {
      fileBuffer[filePosition..]
    }

    /** The blocks that the calls still to come will return. */
    ghost function Remaining(): seq<seq<uint8>>
      requires Valid()
      reads this
    {
      BlocksFrom(Unread(), files)
    }

    constructor (files: seq<seq<uint8>>)
      ensures Valid() && Remaining() == AllBlocks(files)
    {
      this.files := files;
      filePosition, fileBuffer := 0, [];
      BlocksFromAll([], files);
      FromNext([], []);
      ConcatAssociates(AllBlocks(files), [], []);
    }

    predicate HasBytes(size: nat)
      reads this
    {
      filePosition + size <= |fileBuffer|
    }

    method GetBuffer() returns (ok: bool)
      modifies this`files, this`fileBuffer
      ensures ok <==> old(files) != []
      ensures ok ==> fileBuffer == old(files)[0] && files == old(files)[1..]
      ensures !ok ==> files == [] && fileBuffer == old(fileBuffer)
    {
      ok := files != [];
      if ok {
        fileBuffer := files[0];
        files := files[1..];
      }
    }

    /** Every index it reads is inside the buffer. */
    method SkipMagic()
      requires Valid()
      modifies this`filePosition
      ensures Valid() && filePosition >= old(filePosition)
      ensures old(filePosition) < |fileBuffer| ==> filePosition > old(filePosition)
      ensures Unread() == AfterMagic(old(Unread()))
    {
      while true
        invariant Valid() && old(filePosition) <= filePosition
        invariant AfterMagic(Unread()) == AfterMagic(old(Unread()))
        decreases |fileBuffer| - filePosition
      {
        if !HasBytes(4) {
          filePosition := |fileBuffer|;
          break;
        }
        filePosition := filePosition + 1;
        if fileBuffer[filePosition - 1] != MAGIC[0] {
          continue;
        }
        if fileBuffer[filePosition] != MAGIC[1] {
          continue;
        }
        if fileBuffer[filePosition + 1] != MAGIC[2] {
          continue;
        }
        if fileBuffer[filePosition + 2] != MAGIC[3] {
          continue;
        }
        filePosition := filePosition + 3;
        break;
      }
    }

    method Take(n: nat) returns (bytes: seq<uint8>)
      requires Valid() && n <= |Unread()|
      modifies this`filePosition
      ensures Valid() && filePosition == old(filePosition) + n
      ensures bytes == old(Unread())[..n] && Unread() == old(Unread())[n..]
    {
      bytes := fileBuffer[filePosition..filePosition + n];
      filePosition := filePosition + n;
    }

    method SkipAll()
      requires Valid()
      modifies this`filePosition
      ensures Valid() && filePosition == |fileBuffer| && Unread() == []
    {
      filePosition := |fileBuffer|;
    }

    /** One turn of the scanner: past the next magic number, and past its block if there is one. */
    method Attempt() returns (found: bool, blockData: seq<uint8>)
      requires Valid()
      modifies this`filePosition
      ensures Valid() && filePosition >= old(filePosition)
      ensures old(filePosition) < |fileBuffer| ==> filePosition > old(filePosition)
      ensures var was := old(NextFrame(Unread()));
              if found then was == Frame(blockData, Unread()) else was == NextFrame(Unread())
    {
      ghost var s, r := Unread(), AfterMagic(Unread());
      NextFrameStep(s);
      FromNext([], []);
      SkipMagic();
      if !HasBytes(4) {
        SkipAll();
        return false, [];
      }
      var four := Take(4);
      var size := FromLE(four);
      assert size == Length(r);
      if size < MIN_BLOCK {
        return false, [];
      }
      if !HasBytes(size) {
        SkipAll();
        return false, [];
      }
      blockData := Take(size);
      assert blockData == r[4..4 + size];
      found := true;
    }

    /** Successive calls return exactly the blocks of the files, in order, and then `false`. */
    method NextBlock() returns (ok: bool, blockData: seq<uint8>)
      requires Valid()
      modifies this
      ensures Valid()
      ensures ok <==> old(Remaining()) != []
      ensures ok ==> [blockData] + Remaining() == old(Remaining())
      ensures !ok ==> files == [] && filePosition == |fileBuffer|
    {
      ghost var remaining := Remaining();
      while true
        invariant Valid() && Remaining() == remaining
        decreases |files|, |fileBuffer| - filePosition
      {
        FromNext(Unread(), files);
        if !HasBytes(1) {
          ok := GetBuffer();
          if !ok {
            return false, [];
          }
          filePosition := 0;
          FromNext(Unread(), files);
        }
        ok, blockData := Attempt();
        FromNext(Unread(), files);
        if ok {
          return;
        }
      }
    }
  }

  // ---------- what is stored is found, and what is found was stored ----------

  function Stored(payload: seq<uint8>): (r: seq<uint8>)
    ensures |r| == 8 + |payload|
  {
    MAGIC + LE(|payload|, 4) + payload
  }

  /** A block as it is stored, after some other bytes. */
  datatype Piece = Piece(junk: seq<uint8>, payload: seq<uint8>)

  function Layout(pieces: seq<Piece>): seq<uint8> {
    if pieces == [] then [] else pieces[0].junk + (Stored(pieces[0].payload) + Layout(pieces[1..]))
  }

  function Payloads(pieces: seq<Piece>): seq<seq<uint8>> {
    if pieces == [] then [] else [pieces[0].payload] + Payloads(pieces[1..])
  }

  /** No magic number starts in `junk` when one follows right after it. */
  ghost predicate Quiet(junk: seq<uint8>) {
    forall i :: 0 <= i < |junk| ==> !MagicAt(junk + MAGIC, i)
  }

  ghost predicate Storable(p: Piece) {
    Quiet(p.junk) && 80 <= |p.payload| < 0x1_0000_0000
  }

  /** Bytes other than the first one of the magic number are quiet. */
  lemma NoMagicByteIsQuiet(junk: seq<uint8>)
    requires 0xF9 !in junk
    ensures Quiet(junk)
  {
    forall i | 0 <= i < |junk|
      ensures !MagicAt(junk + MAGIC, i)
    {
      assert (junk + MAGIC)[i] == junk[i];
    }
  }

  lemma QuietThenMagic(junk: seq<uint8>, rest: seq<uint8>)
    requires Quiet(junk)
    ensures AfterMagic(junk + (MAGIC + rest)) == rest
  {
    var s := junk + (MAGIC + rest);
    assert MagicAt(s, |junk|);
    forall i | 0 <= i < |junk|
      ensures !MagicAt(s, i)
    {
      assert !MagicAt(junk + MAGIC, i);
    }
    AfterFirstMagic(s, |junk|);
  }

  lemma FirstFrame(p: Piece, rest: seq<uint8>)
    requires Storable(p)
    ensures NextFrame(p.junk + (Stored(p.payload) + rest)) == Frame(p.payload, rest)
  {
    var size := LE(|p.payload|, 4);
    var body := size + (p.payload + rest);
    assert Stored(p.payload) + rest == MAGIC + body;
    QuietThenMagic(p.junk, body);
    assert body[..4] == size && body[4..4 + |p.payload|] == p.payload && body[4 + |p.payload|..] == rest;
    PowerValues();
    LEFits(|p.payload|, 4);
    NextFrameStep(p.junk + (Stored(p.payload) + rest));
  }

  // ---------- byte for byte ----------

  /** The four bytes F9 BE B4 D9 stand at `i`. */
  predicate StandsAt(s: seq<uint8>, i: nat) {
    i + 4 <= |s| && s[i..i + 4] == [0xF9, 0xBE, 0xB4, 0xD9]
  }

  lemma StandsIsMagic(s: seq<uint8>, i: nat)
    ensures StandsAt(s, i) <==> MagicAt(s, i)
  {
    if i + 4 <= |s| {
      var w := s[i..i + 4];
      assert w[0] == s[i] && w[1] == s[i + 1] && w[2] == s[i + 2] && w[3] == s[i + 3];
    }
  }

  /** The four bytes do not start in `junk` when they follow right after it. */
  ghost predicate FirstAfter(junk: seq<uint8>) {
    forall j :: 0 <= j < |junk| ==> !StandsAt(junk + [0xF9, 0xBE, 0xB4, 0xD9], j)
  }

  lemma FirstAfterIsQuiet(junk: seq<uint8>)
    ensures FirstAfter(junk) <==> Quiet(junk)
  {
    var s := junk + [0xF9, 0xBE, 0xB4, 0xD9];
    assert s == junk + MAGIC;
    forall j | 0 <= j < |junk|
      ensures StandsAt(s, j) <==> MagicAt(s, j)
    {
      StandsIsMagic(s, j);
    }
  }

  lemma SearchBehind(s: seq<uint8>, r: seq<uint8>)
    requires AfterMagic(s) == r
    ensures NextFrame(s) ==
            if |r| < 4 then Exhausted
            else if Spelled4(r, 0) < 80 then NextFrame(r[4..])
            else if 4 + Spelled4(r, 0) > |r| then Exhausted
            else Frame(r[4..4 + Spelled4(r, 0)], r[4 + Spelled4(r, 0)..])
  {
    NextFrameStep(s);
    if |r| >= 4 {
      FromLE4(r, 0);
      assert r[0..4] == r[..4];
    }
  }

  /** What one search makes of a buffer in which the first F9 BE B4 D9 is followed by `rest`: four
      bytes spell a length; below 80 it is passed over, beyond the end of the buffer it is the end,
      and otherwise that many bytes are a block. */
  lemma FrameByteForByte(junk: seq<uint8>, rest: seq<uint8>)
    requires FirstAfter(junk)
    ensures NextFrame(junk + ([0xF9, 0xBE, 0xB4, 0xD9] + rest)) ==
            if |rest| < 4 then Exhausted
            else if Spelled4(rest, 0) < 80 then NextFrame(rest[4..])
            else if 4 + Spelled4(rest, 0) > |rest| then Exhausted
            else Frame(rest[4..4 + Spelled4(rest, 0)], rest[4 + Spelled4(rest, 0)..])
  {
    FirstAfterIsQuiet(junk);
    QuietThenMagic(junk, rest);
    SearchBehind(junk + ([0xF9, 0xBE, 0xB4, 0xD9] + rest), rest);
  }

  /** Without these four bytes there is no block. */
  lemma NoFrameByteForByte(s: seq<uint8>)
    requires forall j :: 0 <= j < |s| ==> !StandsAt(s, j)
    ensures NextFrame(s) == Exhausted
  {
    forall j | 0 <= j < |s|
      ensures !MagicAt(s, j)
    {
      assert !StandsAt(s, j);
      StandsIsMagic(s, j);
    }
    NoMagicNoRest(s);
    NextFrameStep(s);
  }

  /** Where a magic number is followed by a length below 80, the search goes on after the length. */
  lemma SmallLengthIsPassedOver(junk: seq<uint8>, size: nat, rest: seq<uint8>)
    requires Quiet(junk) && size < 80
    ensures NextFrame(junk + (MAGIC + (LE(size, 4) + rest))) == NextFrame(rest)
  {
    var body := LE(size, 4) + rest;
    QuietThenMagic(junk, body);
    assert body[..4] == LE(size, 4) && body[4..] == rest;
    PowerValues();
    LEFits(size, 4);
    NextFrameStep(junk + (MAGIC + body));
  }

  /** Where it is followed by a length beyond the end of the buffer, or by none, what is left of the
      buffer is given up. */
  lemma CutShortEndsTheBuffer(junk: seq<uint8>, size: nat, rest: seq<uint8>)
    requires Quiet(junk) && 80 <= size < 0x1_0000_0000 && |rest| < size
    ensures NextFrame(junk + (MAGIC + (LE(size, 4) + rest))) == Exhausted
    ensures |rest| < 4 ==> NextFrame(junk + (MAGIC + rest)) == Exhausted
  {
    var body := LE(size, 4) + rest;
    QuietThenMagic(junk, body);
    QuietThenMagic(junk, rest);
    assert body[..4] == LE(size, 4);
    PowerValues();
    LEFits(size, 4);
    NextFrameStep(junk + (MAGIC + body));
    NextFrameStep(junk + (MAGIC + rest));
  }

  /** Every block stored among quiet bytes is found, in order and unchanged, and whatever follows
      the last one is scanned as if it stood alone. */
  lemma {:induction false} StoredBlocksAreFound(pieces: seq<Piece>, tail: seq<uint8>)
    requires forall p :: p in pieces ==> Storable(p)
    ensures Blocks(Layout(pieces) + tail) == Payloads(pieces) + Blocks(tail)
    decreases |pieces|
  {
    if pieces == [] {
      assert Layout(pieces) + tail == tail;
    } else {
      var p, rest := pieces[0], Layout(pieces[1..]);
      ConcatAssociates(p.junk, Stored(p.payload) + rest, tail);
      ConcatAssociates(Stored(p.payload), rest, tail);
      FirstFrame(p, rest + tail);
      StoredBlocksAreFound(pieces[1..], tail);
      ConcatAssociates([p.payload], Payloads(pieces[1..]), Blocks(tail));
    }
  }

  /** In particular, bytes other than 0xF9 may stand anywhere between, before and after blocks. */
  lemma BlocksAmongPlainBytesAreFound(pieces: seq<Piece>, tail: seq<uint8>)
    requires forall p :: p in pieces ==> 0xF9 !in p.junk && 80 <= |p.payload| < 0x1_0000_0000
    requires 0xF9 !in tail
    ensures Blocks(Layout(pieces) + tail) == Payloads(pieces)
  {
    forall p | p in pieces
      ensures Storable(p)
    {
      NoMagicByteIsQuiet(p.junk);
    }
    NoMagicNoRest(tail);
    NextFrameStep(tail);
    StoredBlocksAreFound(pieces, tail);
    ConcatAssociates(Payloads(pieces), [], []);
  }

  lemma {:induction false} MagicBefore(s: seq<uint8>) returns (before: seq<uint8>)
    requires AfterMagic(s) != []
    ensures s == before + (MAGIC + AfterMagic(s))
  {
    if MagicAt(s, 0) {
      before := [];
    } else {
      var more := MagicBefore(s[1..]);
      before := [s[0]] + more;
      ConcatAssociates([s[0]], more, MAGIC + AfterMagic(s));
      assert s == [s[0]] + s[1..];
    }
  }

  lemma Regroup(a: seq<uint8>, b: seq<uint8>, c: seq<uint8>, d: seq<uint8>, e: seq<uint8>)
    ensures a + (b + (c + (d + e))) == (a + (b + (c + d))) + e
    ensures b + (c + (d + e)) == (b + c + d) + e
  {
  }

  lemma TakeDrop(s: seq<uint8>, n: nat)
    requires n <= |s|
    ensures s == s[..n] + s[n..]
  {
  }

  lemma StoredHere(r: seq<uint8>)
    requires |r| >= 4 && 4 + Length(r) <= |r|
    ensures MAGIC + r == Stored(r[4..4 + Length(r)]) + r[4 + Length(r)..]
  {
    var size, payload, rest := r[..4], r[4..4 + Length(r)], r[4 + Length(r)..];
    LEOfFromLE(size);
    TakeDrop(r, 4 + Length(r));
    TakeDrop(r[..4 + Length(r)], 4);
    Regroup([], MAGIC, size, payload, rest);
    ConcatAssociates(size, payload, rest);
  }

  /** Whatever is returned as a block stands in the buffer as a stored block of at least 80 bytes. */
  lemma {:induction false} FoundWasStored(s: seq<uint8>) returns (before: seq<uint8>)
    requires NextFrame(s).Frame?
    ensures |NextFrame(s).payload| >= 80
    ensures s == before + (Stored(NextFrame(s).payload) + NextFrame(s).rest)
    decreases |s|
  {
    NextFrameStep(s);
    var r := AfterMagic(s);
    before := MagicBefore(s);
    if Length(r) < MIN_BLOCK {
      var more := FoundWasStored(r[4..]);
      TakeDrop(r, 4);
      ghost var found := Stored(NextFrame(s).payload) + NextFrame(s).rest;
      Regroup(before, MAGIC, r[..4], more, found);
      before := before + (MAGIC + (r[..4] + more));
    } else {
      StoredHere(r);
    }
  }
}
