/** libraries/helper/src/scan.cpp, `ScanFast::OnBlock`: the calls that blocks cause on the output
    pool. What the pool does with them is not modelled; it records them. */
module Pool {
  import opened Bytes
  import opened Chain

  /** The hash of a transaction, which stays uninterpreted. */
  type TxHash = Transaction -> Hash256

  datatype PoolCall =
    | BlockStart(blk: Block)
    | TransactionStart(tx: Transaction, txid: Hash256)
    | AddOutput(id: Hash256, index: uint16, lockScript: seq<uint8>, amount: int64)
    | AddInput(id: Hash256, index: uint16, unlockScript: seq<uint8>)
    | End

  /** The cast to uint16_t, by which a transaction's outputs are numbered. */
  function Index16(i: nat): uint16 {
    i % 0x1_0000
  }

  function OutputCall(id: Hash256, outputs: seq<TransactionOutput>, i: nat): PoolCall
    requires i < |outputs|
  {
    AddOutput(id, Index16(i), outputs[i].lockScript, outputs[i].amount)
  }

  function OutputCalls(id: Hash256, outputs: seq<TransactionOutput>, n: nat): seq<PoolCall>
    requires n <= |outputs|
  {
    if n == 0 then [] else OutputCalls(id, outputs, n - 1) + [OutputCall(id, outputs, n - 1)]
  }

  function InputCall(i: TransactionInput): PoolCall {
    AddInput(i.txInID, Index16(i.txInIndex), i.unlockScript)
  }

  function InputCalls(inputs: seq<TransactionInput>, n: nat): seq<PoolCall>
    requires n <= |inputs|
  {
    if n == 0 then [] else InputCalls(inputs, n - 1) + [InputCall(inputs[n - 1])]
  }

  /** What a chain of blocks consists of: block by block its start and its transactions, of which
      the first of each block is marked. */
  datatype Item = Start(blk: Block) | Tx(tx: Transaction, first: bool)

  function TxItems(txs: seq<Transaction>, n: nat): (r: seq<Item>)
    requires n <= |txs|
    ensures |r| == n && forall i :: 0 <= i < n ==> r[i] == Tx(txs[i], i == 0)
  {
    if n == 0 then [] else TxItems(txs, n - 1) + [Tx(txs[n - 1], n == 1)]
  }

  function Items(b: Block): seq<Item> {
    [Start(b)] + TxItems(b.transactions, |b.transactions|)
  }

  function AllItems(blocks: seq<Block>): seq<Item> {
    if blocks == [] then [] else AllItems(blocks[..|blocks| - 1]) + Items(blocks[|blocks| - 1])
  }

  /** The calls of a transaction before those for its inputs. */
  function Opening(t: TxHash, tx: Transaction): seq<PoolCall> {
    [TransactionStart(tx, t(tx))] + OutputCalls(t(tx), tx.outputs, |tx.outputs|)
  }

  /** Outputs are added before inputs; the first transaction of a block adds no inputs. */
  function ItemCalls(t: TxHash, item: Item): seq<PoolCall> {
    match item
    case Start(blk) => [BlockStart(blk)]
    case Tx(tx, first) => Opening(t, tx) + (if first then [] else InputCalls(tx.inputs, |tx.inputs|))
  }

  function Calls(t: TxHash, items: seq<Item>): seq<PoolCall> {
    if items == [] then [] else Calls(t, items[..|items| - 1]) + ItemCalls(t, items[|items| - 1])
  }

  /** All calls for a list of blocks. */
  function Trace(t: TxHash, blocks: seq<Block>): seq<PoolCall> {
    Calls(t, AllItems(blocks))
  }

  lemma CallsSnoc(t: TxHash, items: seq<Item>, item: Item)
    ensures Calls(t, items + [item]) == Calls(t, items) + ItemCalls(t, item)
  {
    assert (items + [item])[..|items|] == items;
  }

  lemma {:induction false} CallsConcat(t: TxHash, items: seq<Item>, more: seq<Item>)
    ensures Calls(t, items + more) == Calls(t, items) + Calls(t, more)
    decreases |more|
  {
    if more == [] {
      ConcatAssociates(items, [], []);
      ConcatAssociates(Calls(t, items), [], []);
    } else {
      var init, last := more[..|more| - 1], more[|more| - 1];
      assert more == init + [last];
      CallsConcat(t, items, init);
      ConcatAssociates(items, init, [last]);
      CallsSnoc(t, items + init, last);
      CallsSnoc(t, init, last);
      ConcatAssociates(Calls(t, items), Calls(t, init), ItemCalls(t, last));
    }
  }

  lemma TraceSnoc(t: TxHash, blocks: seq<Block>, b: Block)
    ensures Trace(t, blocks + [b]) == Trace(t, blocks) + Calls(t, Items(b))
  {
    assert (blocks + [b])[..|blocks|] == blocks;
    CallsConcat(t, AllItems(blocks), Items(b));
  }

  lemma {:induction false} OutputCallsAre(id: Hash256, outputs: seq<TransactionOutput>, n: nat)
    requires n <= |outputs|
    ensures var r := OutputCalls(id, outputs, n);
            |r| == n && forall i :: 0 <= i < n ==> r[i] == OutputCall(id, outputs, i)
  {
    if n > 0 {
      OutputCallsAre(id, outputs, n - 1);
    }
  }

  lemma {:induction false} InputCallsAre(inputs: seq<TransactionInput>, n: nat)
    requires n <= |inputs|
    ensures var r := InputCalls(inputs, n);
            |r| == n && forall i :: 0 <= i < n ==> r[i] == InputCall(inputs[i])
  {
    if n > 0 {
      InputCallsAre(inputs, n - 1);
    }
  }

  // ---------- the trace, call by call ----------

  /** The outputs in order, numbered by 16 bits, each with its own script and amount. */
  function AddedOutputs(id: Hash256, outputs: seq<TransactionOutput>): seq<PoolCall> {
    seq(|outputs|, k requires 0 <= k < |outputs| =>
      AddOutput(id, k % 0x1_0000, outputs[k].lockScript, outputs[k].amount))
  }

  /** The inputs in order, each with the id and the number, cut to 16 bits, of the output it spends. */
  function AddedInputs(inputs: seq<TransactionInput>): seq<PoolCall> {
    seq(|inputs|, k requires 0 <= k < |inputs| =>
      AddInput(inputs[k].txInID, inputs[k].txInIndex % 0x1_0000, inputs[k].unlockScript))
  }

  /** Transactions `j` and later of a block: the start of each, its outputs, and, unless it is the
      first of the block, its inputs. */
  function CallsFrom(t: TxHash, txs: seq<Transaction>, j: nat): seq<PoolCall>
    requires j <= |txs|
    decreases |txs| - j
  {
    if j == |txs| then []
    else
      [TransactionStart(txs[j], t(txs[j]))] + AddedOutputs(t(txs[j]), txs[j].outputs)
      + (if j == 0 then [] else AddedInputs(txs[j].inputs)) + CallsFrom(t, txs, j + 1)
  }

  lemma OutputsCallByCall(id: Hash256, outputs: seq<TransactionOutput>)
    ensures OutputCalls(id, outputs, |outputs|) == AddedOutputs(id, outputs)
  {
    OutputCallsAre(id, outputs, |outputs|);
  }

  lemma InputsCallByCall(inputs: seq<TransactionInput>)
    ensures InputCalls(inputs, |inputs|) == AddedInputs(inputs)
  {
    InputCallsAre(inputs, |inputs|);
  }

  lemma ItemCallByCall(t: TxHash, tx: Transaction, first: bool)
    ensures ItemCalls(t, Tx(tx, first)) ==
            [TransactionStart(tx, t(tx))] + AddedOutputs(t(tx), tx.outputs)
            + (if first then [] else AddedInputs(tx.inputs))
  {
    OutputsCallByCall(t(tx), tx.outputs);
    InputsCallByCall(tx.inputs);
  }

  lemma NextTransaction(t: TxHash, txs: seq<Transaction>, j: nat)
    requires j < |txs|
    ensures CallsFrom(t, txs, j) == ItemCalls(t, Tx(txs[j], j == 0)) + CallsFrom(t, txs, j + 1)
  {
    ItemCallByCall(t, txs[j], j == 0);
  }

  lemma {:induction false} TransactionsCallByCall(t: TxHash, txs: seq<Transaction>, j: nat)
    requires j <= |txs|
    ensures Calls(t, TxItems(txs, j)) + CallsFrom(t, txs, j) == CallsFrom(t, txs, 0)
  {
    if j == 0 {
      ConcatAssociates(CallsFrom(t, txs, 0), [], []);
    } else {
      TransactionsCallByCall(t, txs, j - 1);
      NextTransaction(t, txs, j - 1);
      CallsSnoc(t, TxItems(txs, j - 1), Tx(txs[j - 1], j == 1));
      ConcatAssociates(Calls(t, TxItems(txs, j - 1)), ItemCalls(t, Tx(txs[j - 1], j == 1)), CallsFrom(t, txs, j));
    }
  }

  lemma BlockCallByCall(t: TxHash, b: Block)
    ensures Calls(t, Items(b)) == [BlockStart(b)] + CallsFrom(t, b.transactions, 0)
  {
    var txs := b.transactions;
    TransactionsCallByCall(t, txs, |txs|);
    ConcatAssociates(Calls(t, TxItems(txs, |txs|)), [], []);
    CallsConcat(t, [Start(b)], TxItems(txs, |txs|));
    CallsSnoc(t, [], Start(b));
    assert [] + [Start(b)] == [Start(b)];
  }

  /** Every call there is, in order: a further block adds its start and, transaction by transaction,
      all of the transactions it has. */
  lemma TraceCallByCall(t: TxHash, blocks: seq<Block>, b: Block)
    ensures Trace(t, []) == []
    ensures Trace(t, blocks + [b]) == Trace(t, blocks) + ([BlockStart(b)] + CallsFrom(t, b.transactions, 0))
  {
    TraceSnoc(t, blocks, b);
    BlockCallByCall(t, b);
  }

  /** How many calls the transactions from number `j` on cause. */
  function CallCount(txs: seq<Transaction>, j: nat): nat
    requires j <= |txs|
    decreases |txs| - j
  {
    if j == |txs| then 0
    else 1 + |txs[j].outputs| + (if j == 0 then 0 else |txs[j].inputs|) + CallCount(txs, j + 1)
  }

  lemma {:induction false} TransactionsAreCounted(t: TxHash, txs: seq<Transaction>, j: nat)
    requires j <= |txs|
    ensures |CallsFrom(t, txs, j)| == CallCount(txs, j)
    decreases |txs| - j
  {
    if j < |txs| {
      TransactionsAreCounted(t, txs, j + 1);
    }
  }

  /** A block causes one call, and for each transaction one, one per output, and, after the first
      transaction, one per input. */
  lemma CallsAreCounted(t: TxHash, blocks: seq<Block>, b: Block)
    ensures |Trace(t, blocks + [b])| == |Trace(t, blocks)| + 1 + CallCount(b.transactions, 0)
  {
    TraceCallByCall(t, blocks, b);
    TransactionsAreCounted(t, b.transactions, 0);
  }

  // ---------- the methods ----------

  class OutputPool {
    var trace: seq<PoolCall>

    constructor ()
      ensures trace == []
    {
      trace := [];
    }

    method Record(call: PoolCall)
      modifies this
      ensures trace == old(trace) + [call]
    {
      trace := trace + [call];
    }
  }

  class ScanFast {
    const pool: OutputPool
    const txHash: TxHash

    constructor (pool: OutputPool, txHash: TxHash)
      ensures this.pool == pool && this.txHash == txHash
    {
      this.pool, this.txHash := pool, txHash;
    }

    method OnOutputs(id: Hash256, tx: Transaction)
      modifies pool
      ensures pool.trace == old(pool.trace) + OutputCalls(id, tx.outputs, |tx.outputs|)
      ensures pool.trace == old(pool.trace) + AddedOutputs(id, tx.outputs)
    {
      OutputsCallByCall(id, tx.outputs);
      ConcatAssociates(pool.trace, [], []);
      for i := 0 to |tx.outputs|
        invariant pool.trace == old(pool.trace) + OutputCalls(id, tx.outputs, i)
      {
        pool.Record(AddOutput(id, Index16(i), tx.outputs[i].lockScript, tx.outputs[i].amount));
        ConcatAssociates(old(pool.trace), OutputCalls(id, tx.outputs, i), [OutputCall(id, tx.outputs, i)]);
      }
    }

    method OnInputs(tx: Transaction)
      modifies pool
      ensures pool.trace == old(pool.trace) + InputCalls(tx.inputs, |tx.inputs|)
      ensures pool.trace == old(pool.trace) + AddedInputs(tx.inputs)
    {
      InputsCallByCall(tx.inputs);
      ConcatAssociates(pool.trace, [], []);
      for i := 0 to |tx.inputs|
        invariant pool.trace == old(pool.trace) + InputCalls(tx.inputs, i)
      {
        pool.Record(AddInput(tx.inputs[i].txInID, Index16(tx.inputs[i].txInIndex), tx.inputs[i].unlockScript));
        ConcatAssociates(old(pool.trace), InputCalls(tx.inputs, i), [InputCall(tx.inputs[i])]);
      }
    }

    method OnTransaction(tx: Transaction, first: bool)
      modifies pool
      ensures pool.trace == old(pool.trace) + ItemCalls(txHash, Tx(tx, first))
    {
      ghost var was, opening := pool.trace, Opening(txHash, tx);
      var id := txHash(tx);
      pool.Record(TransactionStart(tx, id));
      OnOutputs(id, tx);
      ConcatAssociates(was, [TransactionStart(tx, id)], OutputCalls(id, tx.outputs, |tx.outputs|));
      ConcatAssociates(opening, [], []);
      if !first {
        OnInputs(tx);
        ConcatAssociates(was, opening, InputCalls(tx.inputs, |tx.inputs|));
      }
    }

    /** The block's start and then its transactions, in order. */
    method OnBlock(blk: Block)
      modifies pool
      ensures pool.trace == old(pool.trace) + Calls(txHash, Items(blk))
      ensures pool.trace == old(pool.trace) + ([BlockStart(blk)] + CallsFrom(txHash, blk.transactions, 0))
    {
      BlockCallByCall(txHash, blk);
      var txs := blk.transactions;
      ghost var was := pool.trace;
      pool.Record(BlockStart(blk));
      CallsSnoc(txHash, [], Start(blk));
      ConcatAssociates([Start(blk)], [], []);
      for i := 0 to |txs|
        invariant pool.trace == was + Calls(txHash, [Start(blk)] + TxItems(txs, i))
      {
        ghost var items := [Start(blk)] + TxItems(txs, i);
        OnTransaction(txs[i], i == 0);
        CallsSnoc(txHash, items, Tx(txs[i], i == 0));
        ConcatAssociates(was, Calls(txHash, items), ItemCalls(txHash, Tx(txs[i], i == 0)));
        ConcatAssociates([Start(blk)], TxItems(txs, i), [Tx(txs[i], i == 0)]);
      }
    }
  }

  // ---------- nothing is left out ----------

  lemma {:induction false} TraceConcat(t: TxHash, a: seq<Block>, b: seq<Block>)
    ensures Trace(t, a + b) == Trace(t, a) + Trace(t, b)
    decreases |b|
  {
    if b == [] {
      ConcatAssociates(a, [], []);
      ConcatAssociates(Trace(t, a), [], []);
    } else {
      var init, last := b[..|b| - 1], b[|b| - 1];
      assert b == init + [last];
      TraceConcat(t, a, init);
      ConcatAssociates(a, init, [last]);
      TraceSnoc(t, a + init, last);
      TraceSnoc(t, init, last);
      ConcatAssociates(Trace(t, a), Trace(t, init), Calls(t, Items(last)));
    }
  }

  lemma InEither(c: PoolCall, a: seq<PoolCall>, b: seq<PoolCall>)
    ensures c in a || c in b <==> c in a + b
  {
  }

  lemma Member(c: PoolCall, all: seq<PoolCall>, before: seq<PoolCall>, some: seq<PoolCall>, after: seq<PoolCall>)
    requires all == before + (some + after) && c in some
    ensures c in all
  {
    InEither(c, some, after);
    InEither(c, before, some + after);
  }

  lemma CallsOfOne(t: TxHash, txs: seq<Transaction>, j: nat, c: PoolCall)
    requires j < |txs| && c in ItemCalls(t, Tx(txs[j], j == 0))
    ensures c in CallsFrom(t, txs, 0)
  {
    var calls := ItemCalls(t, Tx(txs[j], j == 0));
    TransactionsCallByCall(t, txs, j);
    NextTransaction(t, txs, j);
    Member(c, CallsFrom(t, txs, 0), Calls(t, TxItems(txs, j)), calls, CallsFrom(t, txs, j + 1));
  }

  lemma CallsOfBlock(t: TxHash, blocks: seq<Block>, b: Block, c: PoolCall)
    requires b in blocks && c in [BlockStart(b)] + CallsFrom(t, b.transactions, 0)
    ensures c in Trace(t, blocks)
  {
    var i :| 0 <= i < |blocks| && blocks[i] == b;
    var before, after := blocks[..i], blocks[i + 1..];
    assert blocks == (before + [b]) + after;
    TraceConcat(t, before + [b], after);
    TraceCallByCall(t, before, b);
    InEither(c, Trace(t, before), [BlockStart(b)] + CallsFrom(t, b.transactions, 0));
    InEither(c, Trace(t, before + [b]), Trace(t, after));
  }

  lemma CallsOfTransaction(t: TxHash, blocks: seq<Block>, b: Block, j: nat, c: PoolCall)
    requires b in blocks && j < |b.transactions| && c in ItemCalls(t, Tx(b.transactions[j], j == 0))
    ensures c in Trace(t, blocks)
  {
    CallsOfOne(t, b.transactions, j, c);
    InEither(c, [BlockStart(b)], CallsFrom(t, b.transactions, 0));
    CallsOfBlock(t, blocks, b, c);
  }

  /** No block and no transaction of any block is left out. */
  lemma StartsAreRecorded(t: TxHash, blocks: seq<Block>, b: Block)
    requires b in blocks
    ensures BlockStart(b) in Trace(t, blocks)
    ensures forall tx :: tx in b.transactions ==> TransactionStart(tx, t(tx)) in Trace(t, blocks)
  {
    CallsOfBlock(t, blocks, b, BlockStart(b));
    forall tx | tx in b.transactions
      ensures TransactionStart(tx, t(tx)) in Trace(t, blocks)
    {
      var j :| 0 <= j < |b.transactions| && b.transactions[j] == tx;
      CallsOfTransaction(t, blocks, b, j, TransactionStart(tx, t(tx)));
    }
  }

  /** Nor is any of its outputs. */
  lemma EveryOutputIsRecorded(t: TxHash, blocks: seq<Block>, b: Block, j: nat, k: nat)
    requires b in blocks && j < |b.transactions| && k < |b.transactions[j].outputs|
    ensures var tx := b.transactions[j];
            AddOutput(t(tx), k % 0x1_0000, tx.outputs[k].lockScript, tx.outputs[k].amount) in Trace(t, blocks)
  {
    var tx := b.transactions[j];
    var c := AddOutput(t(tx), k % 0x1_0000, tx.outputs[k].lockScript, tx.outputs[k].amount);
    OutputCallsAre(t(tx), tx.outputs, |tx.outputs|);
    assert OutputCalls(t(tx), tx.outputs, |tx.outputs|)[k] == c;
    CallsOfTransaction(t, blocks, b, j, c);
  }

  /** Nor any of its inputs, unless it is the first of its block. */
  lemma EveryInputIsRecorded(t: TxHash, blocks: seq<Block>, b: Block, j: nat, x: TransactionInput)
    requires b in blocks && 0 < j < |b.transactions| && x in b.transactions[j].inputs
    ensures AddInput(x.txInID, x.txInIndex % 0x1_0000, x.unlockScript) in Trace(t, blocks)
  {
    var tx := b.transactions[j];
    var c := AddInput(x.txInID, x.txInIndex % 0x1_0000, x.unlockScript);
    var k :| 0 <= k < |tx.inputs| && tx.inputs[k] == x;
    InputCallsAre(tx.inputs, |tx.inputs|);
    assert InputCalls(tx.inputs, |tx.inputs|)[k] == c;
    CallsOfTransaction(t, blocks, b, j, c);
  }

  // ---------- an output is added before it is spent ----------

  /** The call at `p` adds an input whose output has been added, under the same id and number. */
  ghost predicate SpendsAdded(trace: seq<PoolCall>, p: nat)
    requires p < |trace| && trace[p].AddInput?
  {
    exists q :: 0 <= q < p && trace[q].AddOutput? && trace[q].id == trace[p].id && trace[q].index == trace[p].index
  }

  ghost predicate SpendAfterCreate(trace: seq<PoolCall>) {
    forall p :: 0 <= p < |trace| && trace[p].AddInput? ==> SpendsAdded(trace, p)
  }

  /** The input names an output of `tx`, by the transaction's hash and the output's position. */
  predicate NamesOutputOf(t: TxHash, tx: Transaction, x: TransactionInput) {
    x.txInID == t(tx) && x.txInIndex < |tx.outputs|
  }

  /** The input of item `n` names an output of that item or an earlier one. */
  ghost predicate NamesUpTo(t: TxHash, items: seq<Item>, n: nat, x: TransactionInput)
    requires n < |items|
  {
    exists m :: 0 <= m <= n && items[m].Tx? && NamesOutputOf(t, items[m].tx, x)
  }

  ghost predicate Funded(t: TxHash, items: seq<Item>, n: nat)
    requires n < |items|
  {
    items[n].Tx? && !items[n].first ==> forall x :: x in items[n].tx.inputs ==> NamesUpTo(t, items, n, x)
  }

  /** Every input of every transaction but the first of its block names an output that comes no
      later in chain order. */
  ghost predicate AllFunded(t: TxHash, blocks: seq<Block>) {
    var items := AllItems(blocks);
    forall n :: 0 <= n < |items| ==> Funded(t, items, n)
  }

  /** The call that adds the output the input names is among `calls`. */
  ghost predicate AddedIn(calls: seq<PoolCall>, x: TransactionInput) {
    exists c :: c in calls && c.AddOutput? && c.id == x.txInID && c.index == Index16(x.txInIndex)
  }

  lemma AddedInLarger(a: seq<PoolCall>, b: seq<PoolCall>, x: TransactionInput)
    ensures AddedIn(a, x) || AddedIn(b, x) ==> AddedIn(a + b, x)
  {
    if AddedIn(a, x) || AddedIn(b, x) {
      var c :| (c in a || c in b) && c.AddOutput? && c.id == x.txInID && c.index == Index16(x.txInIndex);
      InEither(c, a, b);
    }
  }

  lemma SpendAppend(trace: seq<PoolCall>, more: seq<PoolCall>)
    requires SpendAfterCreate(trace)
    requires forall i :: 0 <= i < |more| ==> !more[i].AddInput?
    ensures SpendAfterCreate(trace + more)
  {
    var all := trace + more;
    forall p | 0 <= p < |all| && all[p].AddInput?
      ensures SpendsAdded(all, p)
    {
      assert p < |trace| && SpendsAdded(trace, p);
      var q :| 0 <= q < p && trace[q].AddOutput? && trace[q].id == trace[p].id && trace[q].index == trace[p].index;
      assert all[q] == trace[q];
    }
  }

  lemma SpendInputs(trace: seq<PoolCall>, inputs: seq<TransactionInput>)
    requires SpendAfterCreate(trace) && forall x :: x in inputs ==> AddedIn(trace, x)
    ensures SpendAfterCreate(trace + InputCalls(inputs, |inputs|))
  {
    var ins := InputCalls(inputs, |inputs|);
    InputCallsAre(inputs, |inputs|);
    var all := trace + ins;
    forall p | 0 <= p < |all| && all[p].AddInput?
      ensures SpendsAdded(all, p)
    {
      if p < |trace| {
        assert SpendsAdded(trace, p);
        var q :| 0 <= q < p && trace[q].AddOutput? && trace[q].id == trace[p].id && trace[q].index == trace[p].index;
        assert all[q] == trace[q];
      } else {
        var x := inputs[p - |trace|];
        assert all[p] == InputCall(x) && AddedIn(trace, x);
        var c :| c in trace && c.AddOutput? && c.id == x.txInID && c.index == Index16(x.txInIndex);
        var q :| 0 <= q < |trace| && trace[q] == c;
        assert all[q] == c;
      }
    }
  }

  lemma OpeningAdds(t: TxHash, tx: Transaction, k: nat)
    requires k < |tx.outputs|
    ensures OutputCall(t(tx), tx.outputs, k) in Opening(t, tx)
  {
    OutputCallsAre(t(tx), tx.outputs, |tx.outputs|);
    assert OutputCalls(t(tx), tx.outputs, |tx.outputs|)[k] == OutputCall(t(tx), tx.outputs, k);
  }

  lemma InMiddle(c: PoolCall, a: seq<PoolCall>, b: seq<PoolCall>, d: seq<PoolCall>)
    ensures c in b ==> c in (a + b) + d
  {
    InEither(c, a, b);
    InEither(c, a + b, d);
  }

  lemma CallsAround(t: TxHash, before: seq<Item>, item: Item, after: seq<Item>)
    ensures Calls(t, (before + [item]) + after) == (Calls(t, before) + ItemCalls(t, item)) + Calls(t, after)
  {
    CallsConcat(t, before + [item], after);
    CallsSnoc(t, before, item);
  }

  lemma SplitAt(items: seq<Item>, m: nat)
    requires m < |items|
    ensures items == (items[..m] + [items[m]]) + items[m + 1..]
  {
  }

  lemma ItemRecorded(t: TxHash, items: seq<Item>, m: nat, c: PoolCall)
    requires m < |items| && c in ItemCalls(t, items[m])
    ensures c in Calls(t, items)
  {
    SplitAt(items, m);
    CallsAround(t, items[..m], items[m], items[m + 1..]);
    InMiddle(c, Calls(t, items[..m]), ItemCalls(t, items[m]), Calls(t, items[m + 1..]));
  }

  /** Every output of every transaction is added, with its own script and amount. */
  lemma OutputsRecorded(t: TxHash, items: seq<Item>, m: nat, k: nat)
    requires m < |items| && items[m].Tx? && k < |items[m].tx.outputs|
    ensures OutputCall(t(items[m].tx), items[m].tx.outputs, k) in Calls(t, items)
  {
    OpeningAdds(t, items[m].tx, k);
    ItemRecorded(t, items, m, OutputCall(t(items[m].tx), items[m].tx.outputs, k));
  }

  /** Each of the inputs names an output that is added in one of the two. */
  ghost predicate AllAdded(before: seq<PoolCall>, opening: seq<PoolCall>, inputs: seq<TransactionInput>) {
    forall x :: x in inputs ==> AddedIn(before, x) || AddedIn(opening, x)
  }

  lemma SpendItem(t: TxHash, trace: seq<PoolCall>, item: Item)
    requires SpendAfterCreate(trace)
    requires item.Tx? && !item.first ==> AllAdded(trace, Opening(t, item.tx), item.tx.inputs)
    ensures SpendAfterCreate(trace + ItemCalls(t, item))
  {
    if item.Start? {
      SpendAppend(trace, [BlockStart(item.blk)]);
    } else {
      var tx, opening := item.tx, Opening(t, item.tx);
      OutputCallsAre(t(tx), tx.outputs, |tx.outputs|);
      SpendAppend(trace, opening);
      if item.first {
        ConcatAssociates(opening, [], []);
      } else {
        forall x | x in tx.inputs
          ensures AddedIn(trace + opening, x)
        {
          AddedInLarger(trace, opening, x);
        }
        SpendInputs(trace + opening, tx.inputs);
        ConcatAssociates(trace, opening, InputCalls(tx.inputs, |tx.inputs|));
      }
    }
  }

  lemma NamedIsAdded(t: TxHash, items: seq<Item>, n: nat, x: TransactionInput)
    requires n < |items| && items[n].Tx? && NamesUpTo(t, items, n, x)
    ensures AddedIn(Calls(t, items[..n]), x) || AddedIn(Opening(t, items[n].tx), x)
  {
    var m :| 0 <= m <= n && items[m].Tx? && NamesOutputOf(t, items[m].tx, x);
    var tx := items[m].tx;
    assert OutputCall(t(tx), tx.outputs, x.txInIndex).id == x.txInID;
    if m < n {
      OutputsRecorded(t, items[..n], m, x.txInIndex);
    } else {
      OpeningAdds(t, tx, x.txInIndex);
    }
  }

  lemma FundedIsAdded(t: TxHash, items: seq<Item>, n: nat)
    requires n < |items| && Funded(t, items, n) && items[n].Tx? && !items[n].first
    ensures AllAdded(Calls(t, items[..n]), Opening(t, items[n].tx), items[n].tx.inputs)
  {
    forall x | x in items[n].tx.inputs
      ensures AddedIn(Calls(t, items[..n]), x) || AddedIn(Opening(t, items[n].tx), x)
    {
      NamedIsAdded(t, items, n, x);
    }
  }

  lemma CallsOfPrefix(t: TxHash, items: seq<Item>, n: nat)
    requires n < |items|
    ensures Calls(t, items[..n + 1]) == Calls(t, items[..n]) + ItemCalls(t, items[n])
  {
    assert items[..n + 1] == items[..n] + [items[n]];
    CallsSnoc(t, items[..n], items[n]);
  }

  lemma SpendNext(t: TxHash, items: seq<Item>, n: nat)
    requires n < |items| && Funded(t, items, n) && SpendAfterCreate(Calls(t, items[..n]))
    ensures SpendAfterCreate(Calls(t, items[..n + 1]))
  {
    CallsOfPrefix(t, items, n);
    if items[n].Tx? && !items[n].first {
      FundedIsAdded(t, items, n);
    }
    SpendItem(t, Calls(t, items[..n]), items[n]);
  }

  lemma {:induction false} FundedItemsSpendAfterCreate(t: TxHash, items: seq<Item>, n: nat)
    requires n <= |items| && forall i :: 0 <= i < n ==> Funded(t, items, i)
    ensures SpendAfterCreate(Calls(t, items[..n]))
    decreases n
  {
    if n > 0 {
      FundedItemsSpendAfterCreate(t, items, n - 1);
      SpendNext(t, items, n - 1);
    }
  }

  /** On a funded chain, every input call is preceded by the call for the output it names. */
  lemma FundedChainSpendsAfterCreate(t: TxHash, blocks: seq<Block>)
    requires AllFunded(t, blocks)
    ensures SpendAfterCreate(Trace(t, blocks))
  {
    var items := AllItems(blocks);
    FundedItemsSpendAfterCreate(t, items, |items|);
    assert items[..|items|] == items;
  }

  lemma {:induction false} ItemsOfPrefix(blocks: seq<Block>, n: nat)
    requires n <= |blocks|
    ensures AllItems(blocks[..n]) <= AllItems(blocks)
    decreases |blocks|
  {
    if n < |blocks| {
      var init := blocks[..|blocks| - 1];
      ItemsOfPrefix(init, n);
      assert init[..n] == blocks[..n];
    } else {
      assert blocks[..n] == blocks;
    }
  }

  /** So it is on the first blocks of a funded chain. */
  lemma FundedPrefixSpendsAfterCreate(t: TxHash, blocks: seq<Block>, n: nat)
    requires AllFunded(t, blocks) && n <= |blocks|
    ensures SpendAfterCreate(Trace(t, blocks[..n]))
  {
    ItemsOfPrefix(blocks, n);
    var items, all := AllItems(blocks[..n]), AllItems(blocks);
    assert items == all[..|items|];
    FundedItemsSpendAfterCreate(t, all, |items|);
  }

  // ---------- what the 16-bit numbers identify ----------

  /** The numbers of a transaction's outputs are distinct exactly when there are at most 65536. */
  lemma NumbersIdentifyOutputs(n: nat)
    ensures (forall i, j :: 0 <= i < j < n ==> Index16(i) != Index16(j)) <==> n <= 0x1_0000
  {
    if n > 0x1_0000 {
      assert Index16(0) == Index16(0x1_0000);
    }
  }

  lemma OriginInItem(t: TxHash, item: Item, c: PoolCall) returns (k: nat)
    requires c in ItemCalls(t, item) && c.AddOutput?
    ensures item.Tx? && k < |item.tx.outputs| && c == OutputCall(t(item.tx), item.tx.outputs, k)
  {
    var tx := item.tx;
    var outs := OutputCalls(t(tx), tx.outputs, |tx.outputs|);
    OutputCallsAre(t(tx), tx.outputs, |tx.outputs|);
    InputCallsAre(tx.inputs, |tx.inputs|);
    assert c in outs;
    k :| 0 <= k < |outs| && outs[k] == c;
  }

  /** Every call that adds an output comes from an output of a transaction. */
  ghost predicate ComesFrom(t: TxHash, items: seq<Item>, c: PoolCall, m: nat, k: nat) {
    && m < |items| && items[m].Tx? && k < |items[m].tx.outputs|
    && c == OutputCall(t(items[m].tx), items[m].tx.outputs, k)
  }

  lemma {:induction false} OriginItem(t: TxHash, items: seq<Item>, c: PoolCall) returns (m: nat)
    requires c in Calls(t, items)
    ensures m < |items| && c in ItemCalls(t, items[m])
    decreases |items|
  {
    m := |items| - 1;
    var init := items[..m];
    if c !in ItemCalls(t, items[m]) {
      assert c in Calls(t, init) by {
        InEither(c, Calls(t, init), ItemCalls(t, items[m]));
      }
      m := OriginItem(t, init, c);
    }
  }

  lemma Origin(t: TxHash, items: seq<Item>, c: PoolCall) returns (m: nat, k: nat)
    requires c in Calls(t, items) && c.AddOutput?
    ensures ComesFrom(t, items, c, m, k)
  {
    m := OriginItem(t, items, c);
    k := OriginInItem(t, items[m], c);
  }

  /** The call adds input `k` of item `m`, a transaction that is not the first of its block. */
  ghost predicate SpentBy(items: seq<Item>, c: PoolCall, m: nat, k: nat) {
    && m < |items| && items[m].Tx? && !items[m].first && k < |items[m].tx.inputs|
    && c == InputCall(items[m].tx.inputs[k])
  }

  lemma InputInItem(t: TxHash, item: Item, c: PoolCall) returns (k: nat)
    requires c in ItemCalls(t, item) && c.AddInput?
    ensures item.Tx? && !item.first && k < |item.tx.inputs| && c == InputCall(item.tx.inputs[k])
  {
    var tx := item.tx;
    OutputCallsAre(t(tx), tx.outputs, |tx.outputs|);
    InputCallsAre(tx.inputs, |tx.inputs|);
    var ins := InputCalls(tx.inputs, |tx.inputs|);
    assert !item.first && c in ins;
    k :| 0 <= k < |ins| && ins[k] == c;
  }

  /** An input is added exactly if it is one of a transaction that is not the first of its block. */
  lemma InputsRecorded(t: TxHash, items: seq<Item>, c: PoolCall)
    requires c.AddInput?
    ensures c in Calls(t, items) <==> exists m: nat, k: nat :: SpentBy(items, c, m, k)
  {
    if c in Calls(t, items) {
      var m := OriginItem(t, items, c);
      var k := InputInItem(t, items[m], c);
      assert SpentBy(items, c, m, k);
    } else if m: nat, k: nat :| SpentBy(items, c, m, k) {
      var tx := items[m].tx;
      InputCallsAre(tx.inputs, |tx.inputs|);
      assert InputCalls(tx.inputs, |tx.inputs|)[k] == c;
      InEither(c, Opening(t, tx), InputCalls(tx.inputs, |tx.inputs|));
      ItemRecorded(t, items, m, c);
      assert false;
    }
  }

  /** No two transactions have the same hash. */
  ghost predicate DistinctIds(t: TxHash, items: seq<Item>) {
    forall m, n :: 0 <= m < n < |items| && items[m].Tx? && items[n].Tx? ==> t(items[m].tx) != t(items[n].tx)
  }

  /** With distinct ids and at most 65536 outputs, an id and a number name one output: every call
      that adds it carries the script and the amount of the output in that place, so that is what
      a later input spends. */
  lemma KeyNamesOneOutput(t: TxHash, items: seq<Item>, m: nat, k: nat, c: PoolCall)
    requires DistinctIds(t, items)
    requires m < |items| && items[m].Tx? && k < |items[m].tx.outputs| <= 0x1_0000
    requires c in Calls(t, items) && c.AddOutput? && c.id == t(items[m].tx) && c.index == Index16(k)
    ensures c == OutputCall(c.id, items[m].tx.outputs, k)
  {
    var m', k' := Origin(t, items, c);
    assert m' == m;
    NumbersIdentifyOutputs(|items[m].tx.outputs|);
    assert k' == k;
  }

  // ---------- what an input spends ----------

  /** What makes the id and the number of an output unambiguous. */
  ghost predicate Identifiable(t: TxHash, items: seq<Item>) {
    && DistinctIds(t, items)
    && forall m :: 0 <= m < |items| && items[m].Tx? ==> |items[m].tx.outputs| <= 0x1_0000
  }

  ghost predicate SameKey(a: PoolCall, b: PoolCall)
    requires a.AddOutput? && b.AddInput?
  {
    a.id == b.id && a.index == b.index
  }

  /** The call at `p` adds an input `x` that names an output of item `m`; the call at `q`, before
      it, adds this very output, and no call adds another one under its id and number. */
  ghost predicate SpendsAt(t: TxHash, items: seq<Item>, trace: seq<PoolCall>,
                           p: nat, q: nat, m: nat, x: TransactionInput)
  {
    && q < p < |trace| && m < |items| && items[m].Tx? && NamesOutputOf(t, items[m].tx, x)
    && trace[p] == InputCall(x)
    && trace[q] == OutputCall(t(items[m].tx), items[m].tx.outputs, x.txInIndex)
    && forall c :: c in trace && c.AddOutput? && SameKey(c, trace[p]) ==> c == trace[q]
  }

  /** Every input that is added spends the output that it names. */
  ghost predicate SpendsNamedOutputs(t: TxHash, items: seq<Item>, trace: seq<PoolCall>) {
    forall p :: 0 <= p < |trace| && trace[p].AddInput? ==> exists q, m, x :: SpendsAt(t, items, trace, p, q, m, x)
  }

  /** The output found under the key of an input is the one that the input names. */
  lemma KeyOfInput(t: TxHash, items: seq<Item>, x: TransactionInput, m: nat, k: nat, n: nat)
    requires Identifiable(t, items) && n < |items| && NamesUpTo(t, items, n, x)
    requires m < |items| && items[m].Tx? && k < |items[m].tx.outputs|
    requires t(items[m].tx) == x.txInID && Index16(k) == Index16(x.txInIndex)
    ensures NamesOutputOf(t, items[m].tx, x) && k == x.txInIndex
  {
    var m' :| 0 <= m' <= n && items[m'].Tx? && NamesOutputOf(t, items[m'].tx, x);
    assert m' == m;
  }

  lemma SpendsNamedOutput(t: TxHash, items: seq<Item>, p: nat) returns (q: nat, m: nat, x: TransactionInput)
    requires Identifiable(t, items) && forall n :: 0 <= n < |items| ==> Funded(t, items, n)
    requires p < |Calls(t, items)| && Calls(t, items)[p].AddInput? && SpendsAdded(Calls(t, items), p)
    ensures SpendsAt(t, items, Calls(t, items), p, q, m, x)
  {
    var trace := Calls(t, items);
    q :| 0 <= q < p && trace[q].AddOutput? && trace[q].id == trace[p].id && trace[q].index == trace[p].index;
    var k;
    m, k := Origin(t, items, trace[q]);
    InputsRecorded(t, items, trace[p]);
    var n: nat, j: nat :| SpentBy(items, trace[p], n, j);
    x := items[n].tx.inputs[j];
    assert Funded(t, items, n);
    KeyOfInput(t, items, x, m, k, n);
    forall c | c in trace && c.AddOutput? && SameKey(c, trace[p])
      ensures c == trace[q]
    {
      KeyNamesOneOutput(t, items, m, k, c);
    }
  }

  /** On a funded chain with distinct ids and at most 65536 outputs in each transaction, every input
      call is preceded by the call that carries the script and the amount of the output it names. */
  lemma FundedChainSpendsNamedOutputs(t: TxHash, blocks: seq<Block>)
    requires AllFunded(t, blocks) && Identifiable(t, AllItems(blocks))
    ensures SpendsNamedOutputs(t, AllItems(blocks), Trace(t, blocks))
  {
    FundedChainSpendsAfterCreate(t, blocks);
    var items, trace := AllItems(blocks), Trace(t, blocks);
    forall p | 0 <= p < |trace| && trace[p].AddInput?
      ensures exists q, m, x :: SpendsAt(t, items, trace, p, q, m, x)
    {
      var q, m, x := SpendsNamedOutput(t, items, p);
    }
  }

  lemma FundedAlready(t: TxHash, items: seq<Item>, some: seq<Item>, i: nat)
    requires some <= items && i < |some| && Funded(t, items, i)
    ensures Funded(t, some, i)
  {
    if some[i].Tx? && !some[i].first {
      forall x | x in some[i].tx.inputs
        ensures NamesUpTo(t, some, i, x)
      {
        assert NamesUpTo(t, items, i, x);
        var m :| 0 <= m <= i && items[m].Tx? && NamesOutputOf(t, items[m].tx, x);
        assert some[m] == items[m];
      }
    }
  }

  /** What holds of a chain holds of a prefix of it. */
  lemma PrefixIsFunded(t: TxHash, blocks: seq<Block>, n: nat)
    requires AllFunded(t, blocks) && Identifiable(t, AllItems(blocks)) && n <= |blocks|
    ensures AllFunded(t, blocks[..n]) && Identifiable(t, AllItems(blocks[..n]))
  {
    ItemsOfPrefix(blocks, n);
    var items, some := AllItems(blocks), AllItems(blocks[..n]);
    forall i | 0 <= i < |some|
      ensures Funded(t, some, i) && some[i] == items[i]
    {
      assert Funded(t, items, i);
      FundedAlready(t, items, some, i);
    }
  }

  // ---------- the calls of blocks in any order ----------

  function Without(blocks: seq<Block>, i: nat): (r: seq<Block>)
    requires i < |blocks|
    ensures |r| == |blocks| - 1
  {
    blocks[..i] + blocks[i + 1..]
  }

  lemma TakeOutBlock(blocks: seq<Block>, i: nat)
    requires i < |blocks|
    ensures multiset(Without(blocks, i)) == multiset(blocks) - multiset{blocks[i]}
  {
    assert blocks == (blocks[..i] + [blocks[i]]) + blocks[i + 1..];
  }

  lemma TakeOutCalls(t: TxHash, blocks: seq<Block>, i: nat)
    requires i < |blocks|
    ensures multiset(Trace(t, blocks)) == multiset(Trace(t, Without(blocks, i))) + multiset(Trace(t, [blocks[i]]))
  {
    var before, b, after := blocks[..i], blocks[i], blocks[i + 1..];
    assert blocks == (before + [b]) + after;
    TraceConcat(t, before + [b], after);
    TraceConcat(t, before, [b]);
    TraceConcat(t, before, after);
  }

  lemma SomewhereIn(x: Block, b: seq<Block>) returns (i: nat)
    requires x in multiset(b)
    ensures i < |b| && b[i] == x
  {
    i :| 0 <= i < |b| && b[i] == x;
  }

  /** The same blocks cause the same calls, each as often, in whatever order they come. */
  lemma {:induction false} TracePermutes(t: TxHash, a: seq<Block>, b: seq<Block>)
    requires multiset(a) == multiset(b)
    ensures multiset(Trace(t, a)) == multiset(Trace(t, b))
    decreases |a|
  {
    if a == [] {
      assert |multiset(b)| == 0;
    } else {
      assert a[0] in multiset(a);
      var i := SomewhereIn(a[0], b);
      TakeOutBlock(a, 0);
      TakeOutBlock(b, i);
      TracePermutes(t, Without(a, 0), Without(b, i));
      TakeOutCalls(t, a, 0);
      TakeOutCalls(t, b, i);
    }
  }
}
