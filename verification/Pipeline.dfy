/** From the block files to the pool: what the loader delivers, the scanner finds, the decoder reads
    and the ordering hands on. */
module Pipeline {
  import opened Bytes
  import opened Chain
  import opened Frames
  import opened Pool
  import opened ScanOrder
  import Loader
  import Reorder

  /** A block file: stored blocks, each after some other bytes, and what follows the last one. */
  datatype StoredFile = StoredFile(pieces: seq<Piece>, tail: seq<uint8>)

  function FileBytes(f: StoredFile): seq<uint8> {
    Layout(f.pieces) + f.tail
  }

  function FilePayloads(f: StoredFile): seq<seq<uint8>> {
    Payloads(f.pieces)
  }

  function AllBytes(files: seq<StoredFile>): seq<seq<uint8>> {
    if files == [] then [] else [FileBytes(files[0])] + AllBytes(files[1..])
  }

  ghost predicate Sound(f: StoredFile) {
    (forall p :: p in f.pieces ==> Storable(p)) && Blocks(f.tail) == []
  }

  function WriteOne(b: Block): seq<seq<uint8>> {
    [EncBlock(b)]
  }

  function Written(blocks: seq<Block>): seq<seq<uint8>> {
    FlatMap(WriteOne, blocks)
  }

  /** The files hold these blocks, in this order. */
  ghost predicate FilesHold(files: seq<StoredFile>, blocks: seq<Block>) {
    && (forall f :: f in files ==> Sound(f))
    && FlatMap(FilePayloads, files) == Written(blocks)
    && (forall b :: b in blocks ==> ValidBlock(b))
  }

  lemma {:induction false} FilesAreScanned(files: seq<StoredFile>)
    requires forall f :: f in files ==> Sound(f)
    ensures AllBlocks(AllBytes(files)) == FlatMap(FilePayloads, files)
  {
    if files != [] {
      FilesAreScanned(files[1..]);
      assert Sound(files[0]);
      StoredBlocksAreFound(files[0].pieces, files[0].tail);
      ConcatAssociates(FilePayloads(files[0]), [], []);
      FlatMapConcat(Blocks, [FileBytes(files[0])], AllBytes(files[1..]));
      FlatMapOne(Blocks, FileBytes(files[0]));
    }
  }

  lemma ReadBack(b: Block)
    requires ValidBlock(b)
    ensures ReadOne(EncBlock(b)) == [b]
  {
    assert EncBlock(b)[0..|EncBlock(b)|] == EncBlock(b);
    BlockRoundTrip(EncBlock(b), 0, b);
  }

  lemma WrittenIsDecoded(blocks: seq<Block>)
    requires forall b :: b in blocks ==> ValidBlock(b)
    ensures Decoded(Written(blocks)) == blocks
  {
    forall b | b in blocks
      ensures FlatMap(ReadOne, WriteOne(b)) == [b]
    {
      ReadBack(b);
      FlatMapOne(ReadOne, EncBlock(b));
    }
    FlatMapInverse(WriteOne, ReadOne, blocks);
  }

  /** Blocks that are serialized, stored, scanned and read come back unchanged and in order. */
  lemma StoredBlocksComeBack(files: seq<StoredFile>, blocks: seq<Block>)
    requires FilesHold(files, blocks)
    ensures Decoded(AllBlocks(AllBytes(files))) == blocks
  {
    FilesAreScanned(files);
    WrittenIsDecoded(blocks);
  }

  function PiecesOf(blocks: seq<Block>): seq<Piece> {
    if blocks == [] then [] else [Piece([], EncBlock(blocks[0]))] + PiecesOf(blocks[1..])
  }

  /** Written one after the other, valid blocks whose lengths fit four bytes make a sound file: the
      header alone makes each of them long enough not to be passed over. */
  lemma {:induction false} PiecesAreStorable(blocks: seq<Block>)
    requires forall b :: b in blocks ==> ValidBlock(b) && |EncBlock(b)| < 0x1_0000_0000
    ensures forall p :: p in PiecesOf(blocks) ==> Storable(p)
    ensures Payloads(PiecesOf(blocks)) == Written(blocks)
  {
    if blocks != [] {
      PiecesAreStorable(blocks[1..]);
      assert Storable(Piece([], EncBlock(blocks[0])));
    }
  }

  /** Whatever valid blocks are written to a file, the scan reads the same ones back. */
  lemma WriteThenScan(blocks: seq<Block>)
    requires forall b :: b in blocks ==> ValidBlock(b) && |EncBlock(b)| < 0x1_0000_0000
    ensures Decoded(Blocks(Layout(PiecesOf(blocks)))) == blocks
    ensures FilesHold([StoredFile(PiecesOf(blocks), [])], blocks)
  {
    PiecesAreStorable(blocks);
    StoredBlocksAreFound(PiecesOf(blocks), []);
    FromNext([], []);
    assert Blocks([]) == [];
    ConcatAssociates(Layout(PiecesOf(blocks)), [], []);
    ConcatAssociates(Written(blocks), [], []);
    WrittenIsDecoded(blocks);
    FlatMapOne(FilePayloads, StoredFile(PiecesOf(blocks), []));
  }

  // ---------- the ordered scan ----------

  /** What a lone thread has been given is a first part of what the files hold. */
  lemma DeliveredIsPrefix(files: seq<StoredFile>, blocks: seq<Block>, schedule: seq<Loader.Turn>)
    requires FilesHold(files, blocks)
    requires Loader.AllExited(Loader.Run(AllBytes(files), 1, schedule))
    ensures var s := Loader.Run(AllBytes(files), 1, schedule);
            && Decoded(s.delivered) <= blocks
            && (s.deque == [] ==> Decoded(s.delivered) == blocks)
  {
    var s := Loader.Run(AllBytes(files), 1, schedule);
    Loader.LoneDelivery(AllBytes(files), schedule);
    FlatMapConcat(Blocks, s.popped, s.deque);
    FlatMapConcat(ReadOne, s.delivered, AllBlocks(s.deque));
    StoredBlocksComeBack(files, blocks);
    ConcatAssociates(s.delivered, [], []);
  }

  /** The ordered scan, with its one thread, over files that hold the blocks of a funded chain in
      any order: whatever the interleaving, what is handed on is the chain up to the first block
      that was not delivered, and no output is spent before it is created, nor any other than the
      one that is named; if the thread left no buffer behind, it is the whole chain. */
  lemma OrderedScan(h: Reorder.HeaderHash, t: TxHash, chain: seq<Block>,
                    files: seq<StoredFile>, blocks: seq<Block>, schedule: seq<Loader.Turn>)
    requires Reorder.IsChain(h, chain) && AllFunded(t, chain)
    requires FilesHold(files, blocks) && multiset(blocks) == multiset(chain)
    requires Loader.AllExited(Loader.Run(AllBytes(files), 1, schedule))
    ensures var s := Loader.Run(AllBytes(files), 1, schedule);
            var got := Decoded(s.delivered);
            var r := Reorder.Run(h, got);
            && r.emitted == chain[..Reorder.FirstMissing(chain, got, 0)]
            && SpendAfterCreate(Trace(t, r.emitted))
            && (Identifiable(t, AllItems(chain)) ==> SpendsNamedOutputs(t, AllItems(r.emitted), Trace(t, r.emitted)))
            && (s.deque == [] ==> r.emitted == chain && r.pending == map[])
  {
    var s := Loader.Run(AllBytes(files), 1, schedule);
    var got := Decoded(s.delivered);
    DeliveredIsPrefix(files, blocks, schedule);
    forall b | b in got
      ensures b in chain
    {
      assert b in multiset(blocks);
    }
    Reorder.ChainInAnyOrder(h, chain, got);
    var k := Reorder.FirstMissing(chain, got, 0);
    FundedPrefixSpendsAfterCreate(t, chain, k);
    if Identifiable(t, AllItems(chain)) {
      PrefixIsFunded(t, chain, k);
      FundedChainSpendsNamedOutputs(t, chain[..k]);
    }
    if s.deque == [] {
      Reorder.PermutationRecoversChain(h, chain, got);
    }
  }

  /** The unordered scan, with two threads or more: in every interleaving every block of the files is
      read, and in whatever order the threads then handle the blocks, the pool receives exactly the
      calls that the blocks cause in the order of the files, each as often. */
  lemma SharedScan(t: TxHash, files: seq<StoredFile>, blocks: seq<Block>,
                   n: nat, schedule: seq<Loader.Turn>, handled: seq<Block>)
    requires FilesHold(files, blocks)
    requires n >= 2 && Loader.AllExited(Loader.Run(AllBytes(files), n, schedule))
    requires multiset(handled) == multiset(Decoded(Loader.Run(AllBytes(files), n, schedule).delivered))
    ensures Decoded(Loader.Run(AllBytes(files), n, schedule).delivered) == blocks
    ensures multiset(Trace(t, handled)) == multiset(Trace(t, blocks))
  {
    Loader.FullDelivery(AllBytes(files), n, schedule);
    StoredBlocksComeBack(files, blocks);
    TracePermutes(t, handled, blocks);
  }

  /** A hash of 80 bytes that tells the headers apart. */
  ghost predicate CollisionFree(hash: Hasher, blocks: seq<Block>) {
    && (forall a, b :: a in blocks && b in blocks && BlockHash(hash, a) == BlockHash(hash, b) ==>
          EncHeader(a.header) == EncHeader(b.header))
    && (forall b :: b in blocks ==> BlockHash(hash, b) != ZERO_HASH)
  }

  /** Whatever bytes the files contain: as long as the hash has no collisions on the serialized
      headers, no header is handed on twice. */
  lemma NothingIsHandedOnTwice(hash: Hasher, files: seq<seq<uint8>>, i: nat, j: nat)
    requires CollisionFree(hash, Decoded(AllBlocks(files)))
    requires i < j < |Reorder.Run(header => hash(EncHeader(header)), Decoded(AllBlocks(files))).emitted|
    ensures var e := Reorder.Run(header => hash(EncHeader(header)), Decoded(AllBlocks(files))).emitted;
            e[i].header != e[j].header
  {
    var h: Reorder.HeaderHash := header => hash(EncHeader(header));
    var blocks := Decoded(AllBlocks(files));
    forall a, b | a in blocks && b in blocks && h(a.header) == h(b.header)
      ensures a.header == b.header
    {
      assert BlockHash(hash, a) == BlockHash(hash, b);
      HeaderInjective(a.header, b.header);
    }
    forall b | b in blocks
      ensures h(b.header) != ZERO_HASH
    {
      assert BlockHash(hash, b) != ZERO_HASH;
    }
    Reorder.NoDoubleEmission(h, blocks, i, j);
  }
}
