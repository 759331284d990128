/** libraries/bkbase/include/bkbase/stream.h, `StreamSizeOf` and `GetSerializeSize`: the writers once
    more, for a stream that only counts. */
module Sizes {
  import opened Bytes
  import opened Chain
  import opened Vectors
  import CompactSize

  class StreamSizeOf {
    var size: nat

    constructor ()
      ensures size == 0
    {
      size := 0;
    }

    method Write(n: nat)
      modifies this
      ensures size == old(size) + n
    {
      size := size + n;
    }
  }

  method CountCompactSize(stream: StreamSizeOf, n: uint64)
    modifies stream
    ensures stream.size == old(stream.size) + |CompactSize.Enc(n)|
  {
    stream.Write(1);
    if n < 253 {
    } else if n <= 0xFFFF {
      stream.Write(2);
    } else if n <= 0xFFFF_FFFF {
      stream.Write(4);
    } else {
      stream.Write(8);
    }
  }

  method CountBytes(stream: StreamSizeOf, v: seq<uint8>)
    requires |v| < 0x1_0000_0000_0000_0000
    modifies stream
    ensures stream.size == old(stream.size) + |EncBytes(v)|
  {
    CountCompactSize(stream, |v|);
    if v != [] {
      stream.Write(|v|);
    }
  }

  method CountInput(stream: StreamSizeOf, i: TransactionInput)
    requires WritableInput(i)
    modifies stream
    ensures stream.size == old(stream.size) + |EncInput(i)|
  {
    stream.Write(32);
    stream.Write(4);
    CountBytes(stream, i.unlockScript);
    stream.Write(4);
  }

  method CountInputs(stream: StreamSizeOf, items: seq<TransactionInput>)
    requires |items| < 0x1_0000_0000_0000_0000 && forall x :: x in items ==> WritableInput(x)
    modifies stream
    ensures stream.size == old(stream.size) + |EncVector(Inputs(), items)|
  {
    CountCompactSize(stream, |items|);
    ghost var start := stream.size;
    for i := 0 to |items|
      invariant stream.size == start + |EncItems(Inputs(), items[..i])|
    {
      CountInput(stream, items[i]);
      EncItemsSnoc(Inputs(), items, i);
    }
    assert items[..|items|] == items;
  }

  method CountOutput(stream: StreamSizeOf, o: TransactionOutput)
    requires WritableOutput(o)
    modifies stream
    ensures stream.size == old(stream.size) + |EncOutput(o)|
  {
    stream.Write(8);
    CountBytes(stream, o.lockScript);
  }

  method CountOutputs(stream: StreamSizeOf, items: seq<TransactionOutput>)
    requires |items| < 0x1_0000_0000_0000_0000 && forall x :: x in items ==> WritableOutput(x)
    modifies stream
    ensures stream.size == old(stream.size) + |EncVector(Outputs(), items)|
  {
    CountCompactSize(stream, |items|);
    ghost var start := stream.size;
    for i := 0 to |items|
      invariant stream.size == start + |EncItems(Outputs(), items[..i])|
    {
      CountOutput(stream, items[i]);
      EncItemsSnoc(Outputs(), items, i);
    }
    assert items[..|items|] == items;
  }

  method CountTransaction(stream: StreamSizeOf, tx: Transaction)
    requires WritableTransaction(tx)
    modifies stream
    ensures stream.size == old(stream.size) + |EncTransaction(tx)|
  {
    stream.Write(4);
    CountInputs(stream, tx.inputs);
    CountOutputs(stream, tx.outputs);
    stream.Write(4);
  }

  method CountTransactions(stream: StreamSizeOf, items: seq<Transaction>)
    requires |items| < 0x1_0000_0000_0000_0000 && forall x :: x in items ==> WritableTransaction(x)
    modifies stream
    ensures stream.size == old(stream.size) + |EncVector(Transactions(), items)|
  {
    CountCompactSize(stream, |items|);
    ghost var start := stream.size;
    for i := 0 to |items|
      invariant stream.size == start + |EncItems(Transactions(), items[..i])|
    {
      CountTransaction(stream, items[i]);
      EncItemsSnoc(Transactions(), items, i);
    }
    assert items[..|items|] == items;
  }

  method CountHeader(stream: StreamSizeOf, h: BlockHeader)
    modifies stream
    ensures stream.size == old(stream.size) + |EncHeader(h)|
  {
    stream.Write(4);
    stream.Write(32);
    stream.Write(32);
    stream.Write(4);
    stream.Write(4);
    stream.Write(4);
  }

  /** As many bytes as a byte vector receives for the block. */
  method GetSerializeSize(b: Block) returns (size: nat)
    requires WritableBlock(b)
    ensures size == |EncBlock(b)|
  {
    var stream := new StreamSizeOf();
    CountHeader(stream, b.header);
    CountTransactions(stream, b.transactions);
    size := stream.size;
  }
}
