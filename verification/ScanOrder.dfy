/** libraries/helper/src/scan.cpp: the class that receives blocks in any order and hands them on in
    chain order, and the thread that feeds it from the block files. */
module ScanOrder {
  import opened Bytes
  import opened Streams
  import opened Chain
  import opened Reorder
  import opened Pool
  import Frames

  class ScanOrder {
    const fast: ScanFast
    const headerHash: HeaderHash
    var lastBlock: Hash256
    var pendingBlocks: map<Hash256, Block>
    var height: nat
    var pendingReported: nat
    ghost const before: seq<PoolCall>
    ghost var emitted: seq<Block>
    ghost var dropped: seq<Block>

    ghost function State(): Order
      reads this
    {
      Order(lastBlock, pendingBlocks, emitted, dropped)
    }

    ghost predicate Valid()
      reads this, fast.pool
    {
      && Inv(headerHash, State())
      && Recorded()
    }

    /** The height is that of the chain, and the pool has been called for its blocks, after whatever
        calls came before. */
    ghost predicate Recorded()
      reads this, fast.pool
    {
      height == |emitted| && fast.pool.trace == before + Trace(fast.txHash, emitted)
    }

    constructor (fast: ScanFast, headerHash: HeaderHash)
      ensures Valid() && State() == Empty() && before == fast.pool.trace
      ensures this.fast == fast && this.headerHash == headerHash
    {
      this.fast, this.headerHash, before := fast, headerHash, fast.pool.trace;
      lastBlock, pendingBlocks, height, pendingReported := ZERO_HASH, map[], 0, 0;
      emitted, dropped := [], [];
      ConcatAssociates(fast.pool.trace, [], []);
    }

    /** A block becomes the tip and goes to the pool. */
    method HandOn(blk: Block)
      requires Draining(headerHash, State()) && Prev(blk) == lastBlock
      requires Recorded()
      modifies this`lastBlock, this`height, this`emitted, fast.pool
      ensures State() == Emit(headerHash, old(State()), blk)
      ensures Draining(headerHash, State())
      ensures Recorded()
    {
      EmitKeeps(headerHash, State(), blk);
      TraceSnoc(fast.txHash, emitted, blk);
      ConcatAssociates(before, Trace(fast.txHash, emitted), Calls(fast.txHash, Items(blk)));
      lastBlock := headerHash(blk.header);
      height := height + 1;
      fast.OnBlock(blk);
      emitted := emitted + [blk];
    }

    /** `unordered_map::insert` keeps the block that is already there. */
    method Insert(blk: Block)
      requires Valid() && Prev(blk) != lastBlock
      modifies this`pendingBlocks, this`pendingReported, this`dropped
      ensures Valid() && State() == Step(headerHash, old(State()), blk)
    {
      StepKeeps(headerHash, State(), blk);
      if Prev(blk) in pendingBlocks {
        dropped := dropped + [blk];
      } else {
        pendingBlocks := pendingBlocks[Prev(blk) := blk];
      }
      if |pendingBlocks| % 1000 == 0 && |pendingBlocks| > pendingReported {
        pendingReported := |pendingBlocks|;
      }
    }

    /** Hands on, one after the other, the blocks that were waiting for the tip. */
    method DrainPending()
      requires Draining(headerHash, State())
      requires Recorded()
      modifies this, fast.pool
      ensures Valid() && State() == Drain(headerHash, old(State()))
    {
      while lastBlock in pendingBlocks
        invariant Draining(headerHash, State())
        invariant Drain(headerHash, State()) == old(Drain(headerHash, State()))
        invariant Recorded()
        decreases |pendingBlocks|
      {
        ghost var st := State();
        AdvanceKeeps(headerHash, st);
        AdvanceShrinks(headerHash, st);
        var next, key := pendingBlocks[lastBlock], lastBlock;
        HandOn(next);
        pendingBlocks := pendingBlocks - {key};
        assert State() == Advance(headerHash, st);
      }
    }

    /** One arrival: the block waits, or it is handed on with all that waited for it in turn. */
    method OnBlock(blk: Block)
      requires Valid()
      modifies this, fast.pool
      ensures Valid() && State() == Step(headerHash, old(State()), blk)
    {
      if Prev(blk) != lastBlock {
        Insert(blk);
        return;
      }
      HandOn(blk);
      DrainPending();
    }
  }

  // ---------- from the files to the pool ----------

  /** The block that a payload reads as; what does not read as a block is logged and skipped. */
  function ReadOne(payload: seq<uint8>): seq<Block> {
    if DecBlock(payload, 0).Got? then [DecBlock(payload, 0).value] else []
  }

  function Decoded(payloads: seq<seq<uint8>>): seq<Block> {
    FlatMap(ReadOne, payloads)
  }

  lemma DecodedSnoc(payloads: seq<seq<uint8>>, p: seq<uint8>)
    ensures Decoded(payloads + [p]) == Decoded(payloads) + (if DecBlock(p, 0).Got? then [DecBlock(p, 0).value] else [])
  {
    FlatMapConcat(ReadOne, payloads, [p]);
    FlatMapOne(ReadOne, p);
  }

  lemma DecodedAround(before: seq<seq<uint8>>, payload: seq<uint8>, after: seq<seq<uint8>>)
    ensures Decoded(before + ([payload] + after)) == Decoded(before) + (ReadOne(payload) + Decoded(after))
  {
    FlatMapConcat(ReadOne, before, [payload] + after);
    FlatMapConcat(ReadOne, [payload], after);
    FlatMapOne(ReadOne, payload);
  }

  /** What cannot be read is passed over, and the blocks before and after it are read all the same. */
  lemma UnreadableIsSkipped(before: seq<seq<uint8>>, payload: seq<uint8>, after: seq<seq<uint8>>)
    requires DecBlock(payload, 0).Thrown?
    ensures Decoded(before + ([payload] + after)) == Decoded(before) + Decoded(after)
  {
    DecodedAround(before, payload, after);
    ConcatAssociates(Decoded(after), [], []);
  }

  /** A block is read even if other bytes follow it in its payload. */
  lemma ReadableIsTaken(before: seq<seq<uint8>>, b: Block, extra: seq<uint8>, after: seq<seq<uint8>>)
    requires ValidBlock(b)
    ensures Decoded(before + ([EncBlock(b) + extra] + after)) == Decoded(before) + ([b] + Decoded(after))
  {
    var payload := EncBlock(b) + extra;
    assert payload[0..|EncBlock(b)|] == EncBlock(b);
    BlockRoundTrip(payload, 0, b);
    DecodedAround(before, payload, after);
  }

  /** The thread of the ordered scan: what it has done with the blocks of all the files is what the
      state and the pool say. */
  method ThreadProc(loader: Frames.BlockFile, order: ScanOrder, sizes: Sizes)
    requires loader.Valid() && order.Valid() && order.State() == Empty()
    requires ValidSizes(sizes)
    modifies loader, order, order.fast.pool
    ensures order.Valid()
    ensures order.State() == Run(order.headerHash, Decoded(old(loader.Remaining())))
    decreases |loader.Remaining()|
  {
    ghost var all, taken := loader.Remaining(), [];
    ConcatAssociates(all, [], []);
    var ok, blockBuffer := loader.NextBlock();
    while ok
      invariant loader.Valid() && order.Valid()
      invariant all == taken + (if ok then [blockBuffer] + loader.Remaining() else [])
      invariant order.State() == Run(order.headerHash, Decoded(taken))
      decreases ok, |loader.Remaining()|
    {
      var stream := new StreamVector(blockBuffer);
      var r := ReadBlock(stream, sizes);
      DecodedSnoc(taken, blockBuffer);
      ConcatAssociates(Decoded(taken), [], []);
      if r.Got? {
        RunSnoc(order.headerHash, Decoded(taken), r.value);
        order.OnBlock(r.value);
      }
      ConcatAssociates(taken, [blockBuffer], loader.Remaining());
      taken := taken + [blockBuffer];
      ConcatAssociates(taken, [], []);
      ok, blockBuffer := loader.NextBlock();
    }
    ConcatAssociates(taken, [], []);
  }

  /** The whole ordered scan: when its one thread has ended, the pool is told so. */
  method Start(loader: Frames.BlockFile, order: ScanOrder, sizes: Sizes)
    requires loader.Valid() && order.Valid() && order.State() == Empty()
    requires ValidSizes(sizes)
    modifies loader, order, order.fast.pool
    ensures order.State() == Run(order.headerHash, Decoded(old(loader.Remaining())))
    ensures order.fast.pool.trace == order.before + Trace(order.fast.txHash, order.emitted) + [End]
  {
    ThreadProc(loader, order, sizes);
    order.fast.pool.Record(End);
  }
}
