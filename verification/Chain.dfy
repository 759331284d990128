/** libraries/chain/include/chain/transaction.h and block.h: transactions, blocks and their bytes. */
module Chain {
  import opened Bytes
  import opened Streams
  import opened Vectors
  import CompactSize

  type Hash256 = h: seq<uint8> | |h| == 32 witness Zeros(32)

  const ZERO_HASH: Hash256 := Zeros(32)

  datatype TransactionInput =
    TransactionInput(txInID: Hash256, txInIndex: uint32, unlockScript: seq<uint8>, sequence: uint32)

  datatype TransactionOutput = TransactionOutput(amount: int64, lockScript: seq<uint8>)

  datatype Transaction = Transaction(
    version: int32, inputs: seq<TransactionInput>, outputs: seq<TransactionOutput>, lockTime: uint32)

  datatype BlockHeader = BlockHeader(
    version: int32, hashPrevBlock: Hash256, merkleRoot: Hash256, time: uint32, bits: uint32, nonce: uint32)

  datatype Block = Block(header: BlockHeader, transactions: seq<Transaction>)

  // ---------- hashes ----------

  function DecHash(s: seq<uint8>, pos: nat): (r: Parsed<Hash256>) {
    if pos + 32 <= |s| then Got(s[pos..pos + 32], pos + 32) else Thrown(|s|)
  }

  method ReadHash(stream: StreamVector) returns (r: Parsed<Hash256>)
    modifies stream`pos
    ensures r == DecHash(stream.buffer, old(stream.pos)) && stream.pos == r.next
  {
    var bytes := stream.Read(32);
    if |bytes| != 32 {
      return Thrown(stream.pos);
    }
    r := Got(bytes, stream.pos);
  }

  // ---------- inputs ----------

  /** The bytes of an input whose script is written by the given codec. */
  function EncIn(c: Codec<seq<uint8>>, i: TransactionInput): seq<uint8> {
    i.txInID + LE(i.txInIndex, 4) + c.enc(i.unlockScript) + LE(i.sequence, 4)
  }

  function DecIn(c: Codec<seq<uint8>>, s: seq<uint8>, pos: nat): Parsed<TransactionInput> {
    PowerValues();
    var (id, p1) :- DecHash(s, pos);
    var (index, p2) :- DecNumber(s, p1, 4);
    var (script, p3) :- c.dec(s, p2);
    var (sequence, p4) :- DecNumber(s, p3, 4);
    Got(TransactionInput(id, index, script, sequence), p4)
  }

  function EncInput(i: TransactionInput): seq<uint8> {
    EncIn(Scripts(), i)
  }

  function DecInput(s: seq<uint8>, pos: nat): Parsed<TransactionInput> {
    DecIn(Scripts(), s, pos)
  }

  predicate ValidInput(i: TransactionInput) {
    |i.unlockScript| <= CompactSize.COMPACT_SIZE_MAX
  }

  function Inputs(): Codec<TransactionInput> {
    Codec(EncInput, DecInput, ValidInput)
  }

  lemma InParts(c: Codec<seq<uint8>>, s: seq<uint8>, pos: nat, i: TransactionInput)
    ensures At(s, pos, EncIn(c, i)) <==>
      && At(s, pos, i.txInID) && At(s, pos + 32, LE(i.txInIndex, 4))
      && At(s, pos + 36, c.enc(i.unlockScript))
      && At(s, pos + 36 + |c.enc(i.unlockScript)|, LE(i.sequence, 4))
  {
    AtConcat4(s, pos, i.txInID, LE(i.txInIndex, 4), c.enc(i.unlockScript), LE(i.sequence, 4));
  }

  /** The sequence number after the script is what catches a script that was cut short. */
  lemma InFaithful(c: Codec<seq<uint8>>, s: seq<uint8>, pos: nat)
    requires Faithful(c, false)
    ensures var r := DecIn(c, s, pos);
            r.Got? ==>
              && pos < |s| && r.next <= |s| && c.valid(r.value.unlockScript)
              && At(s, pos, EncIn(c, r.value)) && r.next == pos + |EncIn(c, r.value)|
  {
    var r := DecIn(c, s, pos);
    if r.Got? {
      PowerValues();
      NumberCanonical(s, pos + 32, 4);
      assert FaithfulAt(c, false, s, pos + 36);
      NumberCanonical(s, c.dec(s, pos + 36).next, 4);
      InParts(c, s, pos, r.value);
    }
  }

  lemma InRoundTrip(c: Codec<seq<uint8>>, s: seq<uint8>, pos: nat, i: TransactionInput)
    requires Accepts(c) && c.valid(i.unlockScript) && At(s, pos, EncIn(c, i))
    ensures DecIn(c, s, pos) == Got(i, pos + |EncIn(c, i)|)
  {
    InParts(c, s, pos, i);
    PowerValues();
    NumberRoundTrip(s, pos + 32, i.txInIndex, 4);
    assert AcceptsAt(c, s, pos + 36);
    NumberRoundTrip(s, pos + 36 + |c.enc(i.unlockScript)|, i.sequence, 4);
  }

  lemma InputLaws()
    ensures Faithful(Inputs(), true) && Accepts(Inputs())
  {
    forall s: seq<uint8>, pos: nat
      ensures FaithfulAt(Inputs(), true, s, pos) && AcceptsAt(Inputs(), s, pos)
    {
      BytesLaws();
      InFaithful(Scripts(), s, pos);
      forall i: TransactionInput | ValidInput(i) && At(s, pos, EncInput(i))
        ensures DecInput(s, pos) == Got(i, pos + |EncInput(i)|)
      {
        InRoundTrip(Scripts(), s, pos, i);
      }
    }
  }

  /** A vector's length fits 64 bits. */
  predicate WritableInput(i: TransactionInput) {
    |i.unlockScript| < 0x1_0000_0000_0000_0000
  }

  method WriteInput(stream: StreamVector, i: TransactionInput)
    requires WritableInput(i)
    modifies stream`buffer
    ensures stream.buffer == old(stream.buffer) + EncInput(i)
  {
    PowerValues();
    Associate4(stream.buffer, i.txInID, LE(i.txInIndex, 4), EncBytes(i.unlockScript), LE(i.sequence, 4));
    stream.Write(i.txInID);
    WriteNumber(stream, i.txInIndex, 4);
    WriteBytes(stream, i.unlockScript);
    WriteNumber(stream, i.sequence, 4);
  }

  method ReadInput(stream: StreamVector) returns (r: Parsed<TransactionInput>)
    modifies stream`pos
    ensures r == DecInput(stream.buffer, old(stream.pos)) && stream.pos == r.next
  {
    PowerValues();
    var id := ReadHash(stream);
    if id.Thrown? { return Thrown(id.next); }
    var index := ReadNumber(stream, 4);
    if index.Thrown? { return Thrown(index.next); }
    var script := ReadBytes(stream);
    if script.Thrown? { return Thrown(script.next); }
    var sequence := ReadNumber(stream, 4);
    if sequence.Thrown? { return Thrown(sequence.next); }
    r := Got(TransactionInput(id.value, index.value, script.value, sequence.value), stream.pos);
  }

  // ---------- vectors of inputs ----------

  method WriteInputs(stream: StreamVector, items: seq<TransactionInput>)
    requires |items| < 0x1_0000_0000_0000_0000 && forall x :: x in items ==> WritableInput(x)
    modifies stream`buffer
    ensures stream.buffer == old(stream.buffer) + EncVector(Inputs(), items)
  {
    CompactSize.Write(stream, |items|);
    ghost var start := stream.buffer;
    WriteStart(Inputs(), start, items);
    for i := 0 to |items|
      invariant Writing(Inputs(), start, items, i, stream.buffer)
    {
      WriteStep(Inputs(), start, items, i, stream.buffer);
      WriteInput(stream, items[i]);
    }
    WriteEnd(Inputs(), old(stream.buffer), items, stream.buffer);
  }

  /** Reads one of the inputs that are still to be read. */
  method ReadNextInput(stream: StreamVector, ghost whole: Parsed<seq<TransactionInput>>,
                       ghost stages: iset<Stage<TransactionInput>>, ghost v: seq<TransactionInput>, ghost n: nat)
    returns (item: Parsed<TransactionInput>)
    requires n > 0 && Stages(Inputs(), whole, stream.buffer, stages) && Stage(v, n, stream.pos) in stages
    modifies stream`pos
    ensures stream.pos == item.next
    ensures item.Got? ==> Stage(v + [item.value], n - 1, stream.pos) in stages
    ensures item.Thrown? ==> whole == Thrown(stream.pos)
  {
    FillStep(Inputs(), whole, stream.buffer, stages, Stage(v, n, stream.pos));
    item := ReadInput(stream);
  }

  /** Reads the elements from `first` on in place. */
  method FillInputChunk(stream: StreamVector, first: nat, chunk: seq<TransactionInput>,
                        ghost whole: Parsed<seq<TransactionInput>>, ghost stages: iset<Stage<TransactionInput>>,
                        ghost n: nat)
    returns (v: seq<TransactionInput>, thrown: bool)
    requires first <= |chunk| <= n && Stages(Inputs(), whole, stream.buffer, stages)
    requires Stage(chunk[..first], n - first, stream.pos) in stages
    modifies stream`pos
    ensures thrown ==> whole == Thrown(stream.pos)
    ensures !thrown ==> |v| == |chunk| && Stage(v, n - |v|, stream.pos) in stages
  {
    v := chunk;
    var i := first;
    while i < |v|
      invariant first <= i <= |v| == |chunk|
      invariant Stage(v[..i], n - i, stream.pos) in stages
    {
      var item := ReadNextInput(stream, whole, stages, v[..i], n - i);
      if item.Thrown? { return v, true; }
      FillPlace(v, i, item.value);
      v := v[i := item.value];
      i := i + 1;
    }
    assert v[..i] == v;
    thrown := false;
  }

  /** The vector grows by `chunk` default elements at a time. */
  method FillInputs(stream: StreamVector, n: nat, chunk: nat,
                    ghost whole: Parsed<seq<TransactionInput>>, ghost stages: iset<Stage<TransactionInput>>)
    returns (r: Parsed<seq<TransactionInput>>)
    requires chunk > 0
    requires Stages(Inputs(), whole, stream.buffer, stages) && Stage([], n, stream.pos) in stages
    modifies stream`pos
    ensures r == whole && stream.pos == r.next
  {
    var i, nMid := 0, 0;
    var v: seq<TransactionInput> := [];
    while nMid < n
      invariant 0 <= i == nMid == |v| <= n
      invariant Stage(v, n - i, stream.pos) in stages
    {
      nMid := nMid + chunk;
      if nMid > n {
        nMid := n;
      }
      ghost var before := v;
      v := v + seq(nMid - |v|, k => TransactionInput(ZERO_HASH, 0xFFFF_FFFF, [], 0xFFFF_FFFF));
      assert v[..i] == before;
      var thrown;
      v, thrown := FillInputChunk(stream, i, v, whole, stages, n);
      if thrown { return Thrown(stream.pos); }
      i := nMid;
    }
    FillEnd(Inputs(), whole, stream.buffer, stages, Stage(v, 0, stream.pos));
    r := Got(v, stream.pos);
  }

  method ReadInputs(stream: StreamVector, sizeofInput: nat) returns (r: Parsed<seq<TransactionInput>>)
    requires 0 < sizeofInput <= 5000000
    modifies stream`pos
    ensures r == DecVector(Inputs(), stream.buffer, old(stream.pos)) && stream.pos == r.next
  {
    var size := CompactSize.Read(stream);
    if size.Thrown? { return Thrown(size.next); }
    ghost var whole := DecItems(Inputs(), size.value, stream.buffer, stream.pos);
    ghost var stages := FillStart(Inputs(), size.value, stream.buffer, stream.pos);
    r := FillInputs(stream, size.value, 5000000 / sizeofInput, whole, stages);
  }

  // ---------- outputs ----------

  function EncOut(c: Codec<seq<uint8>>, o: TransactionOutput): seq<uint8> {
    LE(Unsigned64(o.amount), 8) + c.enc(o.lockScript)
  }

  function DecOut(c: Codec<seq<uint8>>, s: seq<uint8>, pos: nat): Parsed<TransactionOutput> {
    PowerValues();
    var (amount, p1) :- DecNumber(s, pos, 8);
    var (script, p2) :- c.dec(s, p1);
    Got(TransactionOutput(Signed64(amount), script), p2)
  }

  function EncOutput(o: TransactionOutput): seq<uint8> {
    EncOut(Scripts(), o)
  }

  function DecOutput(s: seq<uint8>, pos: nat): Parsed<TransactionOutput> {
    DecOut(Scripts(), s, pos)
  }

  predicate ValidOutput(o: TransactionOutput) {
    |o.lockScript| <= CompactSize.COMPACT_SIZE_MAX
  }

  function Outputs(): Codec<TransactionOutput> {
    Codec(EncOutput, DecOutput, ValidOutput)
  }

  /** Nothing follows the script inside an output, so at the end of the stream it may be short. */
  lemma OutFaithful(c: Codec<seq<uint8>>, s: seq<uint8>, pos: nat)
    requires Faithful(c, false)
    ensures var r := DecOut(c, s, pos);
            r.Got? ==>
              && pos < |s| && r.next <= |s| && c.valid(r.value.lockScript)
              && (r.next < |s| ==> At(s, pos, EncOut(c, r.value)) && r.next == pos + |EncOut(c, r.value)|)
  {
    var r := DecOut(c, s, pos);
    if r.Got? {
      PowerValues();
      NumberCanonical(s, pos, 8);
      assert FaithfulAt(c, false, s, pos + 8);
      AtConcat(s, pos, LE(Unsigned64(r.value.amount), 8), c.enc(r.value.lockScript));
    }
  }

  lemma OutRoundTrip(c: Codec<seq<uint8>>, s: seq<uint8>, pos: nat, o: TransactionOutput)
    requires Accepts(c) && c.valid(o.lockScript) && At(s, pos, EncOut(c, o))
    ensures DecOut(c, s, pos) == Got(o, pos + |EncOut(c, o)|)
  {
    PowerValues();
    AtConcat(s, pos, LE(Unsigned64(o.amount), 8), c.enc(o.lockScript));
    NumberRoundTrip(s, pos, Unsigned64(o.amount), 8);
    assert AcceptsAt(c, s, pos + 8);
  }

  lemma OutputLaws()
    ensures Faithful(Outputs(), false) && Accepts(Outputs())
  {
    forall s: seq<uint8>, pos: nat
      ensures FaithfulAt(Outputs(), false, s, pos) && AcceptsAt(Outputs(), s, pos)
    {
      BytesLaws();
      OutFaithful(Scripts(), s, pos);
      forall o: TransactionOutput | ValidOutput(o) && At(s, pos, EncOutput(o))
        ensures DecOutput(s, pos) == Got(o, pos + |EncOutput(o)|)
      {
        OutRoundTrip(Scripts(), s, pos, o);
      }
    }
  }

  /** An output read on its own is what was written exactly when the bytes its script length
      announces are there. */
  lemma OutputCanonicalUnlessCutShort(s: seq<uint8>, pos: nat)
    requires DecOutput(s, pos).Got?
    ensures var r := DecOutput(s, pos);
            && pos + 8 < |s|
            && (At(s, pos, EncOutput(r.value)) <==>
                  CompactSize.Dec(s, pos + 8).next + CompactSize.Dec(s, pos + 8).value <= |s|)
  {
    var r := DecOutput(s, pos);
    var size := CompactSize.Dec(s, pos + 8);
    var script := r.value.lockScript;
    CompactSize.Canonical(s, pos + 8);
    NumberCanonical(s, pos, 8);
    AtConcat(s, pos, LE(Unsigned64(r.value.amount), 8), EncBytes(script));
    AtConcat(s, pos + 8, CompactSize.Enc(size.value), script);
    if size.next + size.value <= |s| {
      PaddedFull(s[size.next..size.next + size.value]);
    }
  }

  lemma {:induction false} ZeroValue(k: nat)
    ensures FromLE(Zeros(k)) == 0
  {
    if k > 0 {
      assert Zeros(k)[1..] == Zeros(k - 1);
      ZeroValue(k - 1);
    }
  }

  /** Nine bytes announce a one-byte script and end there: read as a script of one zero byte. */
  lemma CutShortOutputIsAccepted()
    ensures var s := Zeros(8) + [1];
            DecOutput(s, 0) == Got(TransactionOutput(0, [0]), 9) && EncOutput(TransactionOutput(0, [0])) != s
  {
    var s := Zeros(8) + [1];
    LEOfFromLE(Zeros(8));
    ZeroValue(8);
    assert s[0..8] == Zeros(8);
    assert Padded([], 1) == [0];
  }

  predicate WritableOutput(o: TransactionOutput) {
    |o.lockScript| < 0x1_0000_0000_0000_0000
  }

  method WriteOutput(stream: StreamVector, o: TransactionOutput)
    requires WritableOutput(o)
    modifies stream`buffer
    ensures stream.buffer == old(stream.buffer) + EncOutput(o)
  {
    PowerValues();
    WriteNumber(stream, Unsigned64(o.amount), 8);
    WriteBytes(stream, o.lockScript);
  }

  method ReadOutput(stream: StreamVector) returns (r: Parsed<TransactionOutput>)
    modifies stream`pos
    ensures r == DecOutput(stream.buffer, old(stream.pos)) && stream.pos == r.next
  {
    PowerValues();
    var amount := ReadNumber(stream, 8);
    if amount.Thrown? { return Thrown(amount.next); }
    var script := ReadBytes(stream);
    if script.Thrown? { return Thrown(script.next); }
    r := Got(TransactionOutput(Signed64(amount.value), script.value), stream.pos);
  }

  // ---------- vectors of outputs ----------

  method WriteOutputs(stream: StreamVector, items: seq<TransactionOutput>)
    requires |items| < 0x1_0000_0000_0000_0000 && forall x :: x in items ==> WritableOutput(x)
    modifies stream`buffer
    ensures stream.buffer == old(stream.buffer) + EncVector(Outputs(), items)
  {
    CompactSize.Write(stream, |items|);
    ghost var start := stream.buffer;
    WriteStart(Outputs(), start, items);
    for i := 0 to |items|
      invariant Writing(Outputs(), start, items, i, stream.buffer)
    {
      WriteStep(Outputs(), start, items, i, stream.buffer);
      WriteOutput(stream, items[i]);
    }
    WriteEnd(Outputs(), old(stream.buffer), items, stream.buffer);
  }

  /** Reads one of the outputs that are still to be read. */
  method ReadNextOutput(stream: StreamVector, ghost whole: Parsed<seq<TransactionOutput>>,
                        ghost stages: iset<Stage<TransactionOutput>>, ghost v: seq<TransactionOutput>, ghost n: nat)
    returns (item: Parsed<TransactionOutput>)
    requires n > 0 && Stages(Outputs(), whole, stream.buffer, stages) && Stage(v, n, stream.pos) in stages
    modifies stream`pos
    ensures stream.pos == item.next
    ensures item.Got? ==> Stage(v + [item.value], n - 1, stream.pos) in stages
    ensures item.Thrown? ==> whole == Thrown(stream.pos)
  {
    FillStep(Outputs(), whole, stream.buffer, stages, Stage(v, n, stream.pos));
    item := ReadOutput(stream);
  }

  /** Reads the elements from `first` on in place. */
  method FillOutputChunk(stream: StreamVector, first: nat, chunk: seq<TransactionOutput>,
                         ghost whole: Parsed<seq<TransactionOutput>>, ghost stages: iset<Stage<TransactionOutput>>,
                         ghost n: nat)
    returns (v: seq<TransactionOutput>, thrown: bool)
    requires first <= |chunk| <= n && Stages(Outputs(), whole, stream.buffer, stages)
    requires Stage(chunk[..first], n - first, stream.pos) in stages
    modifies stream`pos
    ensures thrown ==> whole == Thrown(stream.pos)
    ensures !thrown ==> |v| == |chunk| && Stage(v, n - |v|, stream.pos) in stages
  {
    v := chunk;
    var i := first;
    while i < |v|
      invariant first <= i <= |v| == |chunk|
      invariant Stage(v[..i], n - i, stream.pos) in stages
    {
      var item := ReadNextOutput(stream, whole, stages, v[..i], n - i);
      if item.Thrown? { return v, true; }
      FillPlace(v, i, item.value);
      v := v[i := item.value];
      i := i + 1;
    }
    assert v[..i] == v;
    thrown := false;
  }

  /** The vector grows by `chunk` default elements at a time. */
  method FillOutputs(stream: StreamVector, n: nat, chunk: nat,
                     ghost whole: Parsed<seq<TransactionOutput>>, ghost stages: iset<Stage<TransactionOutput>>)
    returns (r: Parsed<seq<TransactionOutput>>)
    requires chunk > 0
    requires Stages(Outputs(), whole, stream.buffer, stages) && Stage([], n, stream.pos) in stages
    modifies stream`pos
    ensures r == whole && stream.pos == r.next
  {
    var i, nMid := 0, 0;
    var v: seq<TransactionOutput> := [];
    while nMid < n
      invariant 0 <= i == nMid == |v| <= n
      invariant Stage(v, n - i, stream.pos) in stages
    {
      nMid := nMid + chunk;
      if nMid > n {
        nMid := n;
      }
      ghost var before := v;
      v := v + seq(nMid - |v|, k => TransactionOutput(-1, []));
      assert v[..i] == before;
      var thrown;
      v, thrown := FillOutputChunk(stream, i, v, whole, stages, n);
      if thrown { return Thrown(stream.pos); }
      i := nMid;
    }
    FillEnd(Outputs(), whole, stream.buffer, stages, Stage(v, 0, stream.pos));
    r := Got(v, stream.pos);
  }

  method ReadOutputs(stream: StreamVector, sizeofOutput: nat) returns (r: Parsed<seq<TransactionOutput>>)
    requires 0 < sizeofOutput <= 5000000
    modifies stream`pos
    ensures r == DecVector(Outputs(), stream.buffer, old(stream.pos)) && stream.pos == r.next
  {
    var size := CompactSize.Read(stream);
    if size.Thrown? { return Thrown(size.next); }
    ghost var whole := DecItems(Outputs(), size.value, stream.buffer, stream.pos);
    ghost var stages := FillStart(Outputs(), size.value, stream.buffer, stream.pos);
    r := FillOutputs(stream, size.value, 5000000 / sizeofOutput, whole, stages);
  }

  // ---------- transactions ----------

  /** The bytes of a transaction whose inputs and outputs are written by the given codecs. */
  function EncTx(ci: Codec<TransactionInput>, co: Codec<TransactionOutput>, tx: Transaction): seq<uint8> {
    LE(Unsigned32(tx.version), 4) + EncVector(ci, tx.inputs) + EncVector(co, tx.outputs) + LE(tx.lockTime, 4)
  }

  function DecTx(ci: Codec<TransactionInput>, co: Codec<TransactionOutput>, s: seq<uint8>, pos: nat)
    : Parsed<Transaction>
  {
    PowerValues();
    var (version, p1) :- DecNumber(s, pos, 4);
    var (inputs, p2) :- DecVector(ci, s, p1);
    var (outputs, p3) :- DecVector(co, s, p2);
    var (lockTime, p4) :- DecNumber(s, p3, 4);
    Got(Transaction(Signed32(version), inputs, outputs, lockTime), p4)
  }

  function EncTransaction(tx: Transaction): seq<uint8> {
    EncTx(Inputs(), Outputs(), tx)
  }

  function DecTransaction(s: seq<uint8>, pos: nat): Parsed<Transaction> {
    DecTx(Inputs(), Outputs(), s, pos)
  }

  /** No vector in the transaction is longer than the reader accepts. */
  predicate ValidTransaction(tx: Transaction) {
    && |tx.inputs| <= CompactSize.COMPACT_SIZE_MAX && (forall i :: i in tx.inputs ==> ValidInput(i))
    && |tx.outputs| <= CompactSize.COMPACT_SIZE_MAX && (forall o :: o in tx.outputs ==> ValidOutput(o))
  }

  function Transactions(): Codec<Transaction> {
    Codec(EncTransaction, DecTransaction, ValidTransaction)
  }

  lemma TxParts(ci: Codec<TransactionInput>, co: Codec<TransactionOutput>, s: seq<uint8>, pos: nat, tx: Transaction)
    ensures var n, m := |EncVector(ci, tx.inputs)|, |EncVector(co, tx.outputs)|;
      At(s, pos, EncTx(ci, co, tx)) <==>
      && At(s, pos, LE(Unsigned32(tx.version), 4)) && At(s, pos + 4, EncVector(ci, tx.inputs))
      && At(s, pos + 4 + n, EncVector(co, tx.outputs)) && At(s, pos + 4 + n + m, LE(tx.lockTime, 4))
  {
    AtConcat4(s, pos, LE(Unsigned32(tx.version), 4), EncVector(ci, tx.inputs), EncVector(co, tx.outputs),
              LE(tx.lockTime, 4));
  }

  lemma TxWasRead(ci: Codec<TransactionInput>, co: Codec<TransactionOutput>, s: seq<uint8>, pos: nat)
    returns (tx: Transaction, p2: nat, p3: nat)
    requires DecTx(ci, co, s, pos).Got?
    ensures DecTx(ci, co, s, pos) == Got(tx, p3 + 4)
    ensures DecNumber(s, pos, 4) == Got(Unsigned32(tx.version), pos + 4)
    ensures DecVector(ci, s, pos + 4) == Got(tx.inputs, p2)
    ensures DecVector(co, s, p2) == Got(tx.outputs, p3)
    ensures DecNumber(s, p3, 4) == Got(tx.lockTime, p3 + 4)
  {
    PowerValues();
    tx := DecTx(ci, co, s, pos).value;
    p2 := DecVector(ci, s, pos + 4).next;
    p3 := DecVector(co, s, p2).next;
  }

  /** The lock time that follows the outputs is there only if the last output was complete. */
  lemma TxFaithful(ci: Codec<TransactionInput>, co: Codec<TransactionOutput>, s: seq<uint8>, pos: nat)
    requires Faithful(ci, true) && Faithful(co, false)
    ensures var r := DecTx(ci, co, s, pos);
            r.Got? ==>
              && pos < |s| && r.next <= |s|
              && ValidVector(ci, r.value.inputs) && ValidVector(co, r.value.outputs)
              && At(s, pos, EncTx(ci, co, r.value)) && r.next == pos + |EncTx(ci, co, r.value)|
  {
    if DecTx(ci, co, s, pos).Got? {
      var tx, p2, p3 := TxWasRead(ci, co, s, pos);
      assert At(s, pos, LE(Unsigned32(tx.version), 4)) && At(s, p3, LE(tx.lockTime, 4)) by {
        NumberCanonical(s, pos, 4);
        NumberCanonical(s, p3, 4);
      }
      VectorFaithful(ci, true, s, pos + 4);
      VectorFaithful(co, false, s, p2);
      TxParts(ci, co, s, pos, tx);
    }
  }

  /** The four reads in order. */
  lemma TxReads(ci: Codec<TransactionInput>, co: Codec<TransactionOutput>, s: seq<uint8>, pos: nat,
                tx: Transaction, p2: nat, p3: nat)
    requires DecNumber(s, pos, 4) == Got(Unsigned32(tx.version), pos + 4)
    requires DecVector(ci, s, pos + 4) == Got(tx.inputs, p2)
    requires DecVector(co, s, p2) == Got(tx.outputs, p3)
    requires DecNumber(s, p3, 4) == Got(tx.lockTime, p3 + 4)
    ensures DecTx(ci, co, s, pos) == Got(tx, p3 + 4)
  {
  }

  lemma WordRoundTrip(s: seq<uint8>, pos: nat, n: uint32)
    requires At(s, pos, LE(n, 4))
    ensures DecNumber(s, pos, 4) == Got(n, pos + 4)
  {
    PowerValues();
    NumberRoundTrip(s, pos, n, 4);
  }

  /** The four reads, if what they read stands there. */
  lemma TxPartsRead(ci: Codec<TransactionInput>, co: Codec<TransactionOutput>, s: seq<uint8>, pos: nat,
                    tx: Transaction, p2: nat, p3: nat)
    requires Accepts(ci) && Accepts(co) && ValidVector(ci, tx.inputs) && ValidVector(co, tx.outputs)
    requires At(s, pos, LE(Unsigned32(tx.version), 4)) && At(s, pos + 4, EncVector(ci, tx.inputs))
    requires p2 == pos + 4 + |EncVector(ci, tx.inputs)| && At(s, p2, EncVector(co, tx.outputs))
    requires p3 == p2 + |EncVector(co, tx.outputs)| && At(s, p3, LE(tx.lockTime, 4))
    ensures DecTx(ci, co, s, pos) == Got(tx, p3 + 4)
  {
    WordRoundTrip(s, pos, Unsigned32(tx.version));
    VectorRoundTrip(ci, tx.inputs, s, pos + 4);
    VectorRoundTrip(co, tx.outputs, s, p2);
    WordRoundTrip(s, p3, tx.lockTime);
    TxReads(ci, co, s, pos, tx, p2, p3);
  }

  lemma TxRoundTrip(ci: Codec<TransactionInput>, co: Codec<TransactionOutput>, s: seq<uint8>, pos: nat, tx: Transaction)
    requires Accepts(ci) && Accepts(co) && ValidVector(ci, tx.inputs) && ValidVector(co, tx.outputs)
    requires At(s, pos, EncTx(ci, co, tx))
    ensures DecTx(ci, co, s, pos) == Got(tx, pos + |EncTx(ci, co, tx)|)
  {
    TxParts(ci, co, s, pos, tx);
    var p2 := pos + 4 + |EncVector(ci, tx.inputs)|;
    TxPartsRead(ci, co, s, pos, tx, p2, p2 + |EncVector(co, tx.outputs)|);
  }

  lemma ValidVectors(tx: Transaction)
    ensures ValidTransaction(tx) <==> ValidVector(Inputs(), tx.inputs) && ValidVector(Outputs(), tx.outputs)
  {
  }

  /** Canonical decoding, although byte vectors tolerate truncation: a transaction that is read is,
      written again, exactly the bytes consumed. */
  lemma TransactionCanonical(s: seq<uint8>, pos: nat)
    ensures FaithfulAt(Transactions(), true, s, pos)
  {
    InputLaws();
    OutputLaws();
    TxFaithful(Inputs(), Outputs(), s, pos);
    if DecTransaction(s, pos).Got? {
      ValidVectors(DecTransaction(s, pos).value);
    }
  }

  lemma TransactionRoundTrip(s: seq<uint8>, pos: nat, tx: Transaction)
    requires ValidTransaction(tx) && At(s, pos, EncTransaction(tx))
    ensures DecTransaction(s, pos) == Got(tx, pos + |EncTransaction(tx)|)
  {
    InputLaws();
    OutputLaws();
    ValidVectors(tx);
    TxRoundTrip(Inputs(), Outputs(), s, pos, tx);
  }

  lemma TransactionLaws()
    ensures Faithful(Transactions(), true) && Accepts(Transactions())
  {
    forall s: seq<uint8>, pos: nat
      ensures FaithfulAt(Transactions(), true, s, pos) && AcceptsAt(Transactions(), s, pos)
    {
      TransactionCanonical(s, pos);
      forall tx: Transaction | ValidTransaction(tx) && At(s, pos, EncTransaction(tx))
        ensures DecTransaction(s, pos) == Got(tx, pos + |EncTransaction(tx)|)
      {
        TransactionRoundTrip(s, pos, tx);
      }
    }
  }

  /** Of everything that starts like a written transaction, no strict prefix is accepted. */
  lemma TransactionPrefixRejected(tx: Transaction, n: nat)
    requires ValidTransaction(tx) && n < |EncTransaction(tx)|
    ensures DecTransaction(EncTransaction(tx)[..n], 0).Thrown?
  {
    var e := EncTransaction(tx);
    var cut := DecTransaction(e[..n], 0);
    TransactionCanonical(e[..n], 0);
    if cut.Got? {
      var e' := EncTransaction(cut.value);
      assert e[0..|e'|] == e[..n][0..|e'|] == e' && e[0..|e|] == e;
      TransactionRoundTrip(e, 0, cut.value);
      TransactionRoundTrip(e, 0, tx);
      assert false;
    }
  }

  predicate WritableTransaction(tx: Transaction) {
    && |tx.inputs| < 0x1_0000_0000_0000_0000 && (forall i :: i in tx.inputs ==> WritableInput(i))
    && |tx.outputs| < 0x1_0000_0000_0000_0000 && (forall o :: o in tx.outputs ==> WritableOutput(o))
  }

  method WriteTransaction(stream: StreamVector, tx: Transaction)
    requires WritableTransaction(tx)
    modifies stream`buffer
    ensures stream.buffer == old(stream.buffer) + EncTransaction(tx)
  {
    PowerValues();
    Associate4(stream.buffer, LE(Unsigned32(tx.version), 4), EncVector(Inputs(), tx.inputs),
               EncVector(Outputs(), tx.outputs), LE(tx.lockTime, 4));
    WriteNumber(stream, Unsigned32(tx.version), 4);
    WriteInputs(stream, tx.inputs);
    WriteOutputs(stream, tx.outputs);
    WriteNumber(stream, tx.lockTime, 4);
  }

  /** The compiler's sizes of an input, an output and a reference to a transaction, which set how
      many elements a chunk holds. */
  datatype Sizes = Sizes(input: nat, output: nat, ref: nat)

  predicate ValidSizes(sizes: Sizes) {
    0 < sizes.input <= 5000000 && 0 < sizes.output <= 5000000 && 0 < sizes.ref <= 5000000
  }

  method ReadTransaction(stream: StreamVector, sizes: Sizes) returns (r: Parsed<Transaction>)
    requires ValidSizes(sizes)
    modifies stream`pos
    ensures r == DecTransaction(stream.buffer, old(stream.pos)) && stream.pos == r.next
  {
    PowerValues();
    var version := ReadNumber(stream, 4);
    if version.Thrown? { return Thrown(version.next); }
    var inputs := ReadInputs(stream, sizes.input);
    if inputs.Thrown? { return Thrown(inputs.next); }
    var outputs := ReadOutputs(stream, sizes.output);
    if outputs.Thrown? { return Thrown(outputs.next); }
    var lockTime := ReadNumber(stream, 4);
    if lockTime.Thrown? { return Thrown(lockTime.next); }
    r := Got(Transaction(Signed32(version.value), inputs.value, outputs.value, lockTime.value), stream.pos);
  }

  // ---------- vectors of transactions ----------

  method WriteTransactions(stream: StreamVector, items: seq<Transaction>)
    requires |items| < 0x1_0000_0000_0000_0000 && forall x :: x in items ==> WritableTransaction(x)
    modifies stream`buffer
    ensures stream.buffer == old(stream.buffer) + EncVector(Transactions(), items)
  {
    CompactSize.Write(stream, |items|);
    ghost var start := stream.buffer;
    WriteStart(Transactions(), start, items);
    for i := 0 to |items|
      invariant Writing(Transactions(), start, items, i, stream.buffer)
    {
      WriteStep(Transactions(), start, items, i, stream.buffer);
      WriteTransaction(stream, items[i]);
    }
    WriteEnd(Transactions(), old(stream.buffer), items, stream.buffer);
  }

  /** Reads one of the transactions that are still to be read. */
  method ReadNextTransaction(stream: StreamVector, sizes: Sizes, ghost whole: Parsed<seq<Transaction>>,
                             ghost stages: iset<Stage<Transaction>>, ghost v: seq<Transaction>, ghost n: nat)
    returns (item: Parsed<Transaction>)
    requires n > 0 && Stages(Transactions(), whole, stream.buffer, stages) && Stage(v, n, stream.pos) in stages
    requires ValidSizes(sizes)
    modifies stream`pos
    ensures stream.pos == item.next
    ensures item.Got? ==> Stage(v + [item.value], n - 1, stream.pos) in stages
    ensures item.Thrown? ==> whole == Thrown(stream.pos)
  {
    FillStep(Transactions(), whole, stream.buffer, stages, Stage(v, n, stream.pos));
    item := ReadTransaction(stream, sizes);
  }

  /** Reads the elements from `first` on in place. */
  method FillTransactionChunk(stream: StreamVector, first: nat, chunk: seq<Transaction>, sizes: Sizes,
                              ghost whole: Parsed<seq<Transaction>>, ghost stages: iset<Stage<Transaction>>,
                              ghost n: nat)
    returns (v: seq<Transaction>, thrown: bool)
    requires first <= |chunk| <= n && Stages(Transactions(), whole, stream.buffer, stages)
    requires Stage(chunk[..first], n - first, stream.pos) in stages
    requires ValidSizes(sizes)
    modifies stream`pos
    ensures thrown ==> whole == Thrown(stream.pos)
    ensures !thrown ==> |v| == |chunk| && Stage(v, n - |v|, stream.pos) in stages
  {
    v := chunk;
    var i := first;
    while i < |v|
      invariant first <= i <= |v| == |chunk|
      invariant Stage(v[..i], n - i, stream.pos) in stages
    {
      var item := ReadNextTransaction(stream, sizes, whole, stages, v[..i], n - i);
      if item.Thrown? { return v, true; }
      FillPlace(v, i, item.value);
      v := v[i := item.value];
      i := i + 1;
    }
    assert v[..i] == v;
    thrown := false;
  }

  /** The vector grows by `chunk` default elements at a time. */
  method FillTransactions(stream: StreamVector, n: nat, chunk: nat, sizes: Sizes,
                          ghost whole: Parsed<seq<Transaction>>, ghost stages: iset<Stage<Transaction>>)
    returns (r: Parsed<seq<Transaction>>)
    requires chunk > 0 && ValidSizes(sizes)
    requires Stages(Transactions(), whole, stream.buffer, stages) && Stage([], n, stream.pos) in stages
    modifies stream`pos
    ensures r == whole && stream.pos == r.next
  {
    var i, nMid := 0, 0;
    var v: seq<Transaction> := [];
    while nMid < n
      invariant 0 <= i == nMid == |v| <= n
      invariant Stage(v, n - i, stream.pos) in stages
    {
      nMid := nMid + chunk;
      if nMid > n {
        nMid := n;
      }
      ghost var before := v;
      v := v + seq(nMid - |v|, k => Transaction(2, [], [], 0));
      assert v[..i] == before;
      var thrown;
      v, thrown := FillTransactionChunk(stream, i, v, sizes, whole, stages, n);
      if thrown { return Thrown(stream.pos); }
      i := nMid;
    }
    FillEnd(Transactions(), whole, stream.buffer, stages, Stage(v, 0, stream.pos));
    r := Got(v, stream.pos);
  }

  method ReadTransactions(stream: StreamVector, sizes: Sizes) returns (r: Parsed<seq<Transaction>>)
    requires ValidSizes(sizes)
    modifies stream`pos
    ensures r == DecVector(Transactions(), stream.buffer, old(stream.pos)) && stream.pos == r.next
  {
    var size := CompactSize.Read(stream);
    if size.Thrown? { return Thrown(size.next); }
    ghost var whole := DecItems(Transactions(), size.value, stream.buffer, stream.pos);
    ghost var stages := FillStart(Transactions(), size.value, stream.buffer, stream.pos);
    r := FillTransactions(stream, size.value, 5000000 / sizes.ref, sizes, whole, stages);
  }

  // ---------- headers ----------

  function EncHeader(h: BlockHeader): (e: seq<uint8>)
    ensures |e| == 80
  {
    LE(Unsigned32(h.version), 4) + h.hashPrevBlock + h.merkleRoot
    + LE(h.time, 4) + LE(h.bits, 4) + LE(h.nonce, 4)
  }

  /** The double SHA-256 of crypto::StreamHash256, which stays uninterpreted. */
  type Hasher = seq<uint8> -> Hash256

  function BlockHash(hash: Hasher, b: Block): Hash256 {
    hash(EncHeader(b.header))
  }

  function DecHeader(s: seq<uint8>, pos: nat): Parsed<BlockHeader> {
    PowerValues();
    var (version, p1) :- DecNumber(s, pos, 4);
    var (prev, p2) :- DecHash(s, p1);
    var (merkle, p3) :- DecHash(s, p2);
    var (time, p4) :- DecNumber(s, p3, 4);
    var (bits, p5) :- DecNumber(s, p4, 4);
    var (nonce, p6) :- DecNumber(s, p5, 4);
    Got(BlockHeader(Signed32(version), prev, merkle, time, bits, nonce), p6)
  }

  lemma HeaderParts(s: seq<uint8>, pos: nat, h: BlockHeader)
    ensures At(s, pos, EncHeader(h)) <==>
      && At(s, pos, LE(Unsigned32(h.version), 4)) && At(s, pos + 4, h.hashPrevBlock)
      && At(s, pos + 36, h.merkleRoot) && At(s, pos + 68, LE(h.time, 4))
      && At(s, pos + 72, LE(h.bits, 4)) && At(s, pos + 76, LE(h.nonce, 4))
  {
    var a, b, c := LE(Unsigned32(h.version), 4), h.hashPrevBlock, h.merkleRoot;
    var d, e, f := LE(h.time, 4), LE(h.bits, 4), LE(h.nonce, 4);
    AtConcat(s, pos, a + b + c + d + e, f);
    AtConcat(s, pos, a + b + c + d, e);
    AtConcat4(s, pos, a, b, c, d);
  }

  /** Every 80 bytes are a header, and the header they are is the one written that way. */
  lemma HeaderCanonical(s: seq<uint8>, pos: nat)
    ensures var r := DecHeader(s, pos);
            && (r.Got? <==> pos + 80 <= |s|)
            && (r.Got? ==> At(s, pos, EncHeader(r.value)) && r.next == pos + 80)
  {
    PowerValues();
    var r := DecHeader(s, pos);
    if r.Got? {
      NumberCanonical(s, pos, 4);
      NumberCanonical(s, pos + 68, 4);
      NumberCanonical(s, pos + 72, 4);
      NumberCanonical(s, pos + 76, 4);
      HeaderParts(s, pos, r.value);
    }
  }

  /** The six reads in order. */
  lemma HeaderReads(s: seq<uint8>, pos: nat, h: BlockHeader)
    requires DecNumber(s, pos, 4) == Got(Unsigned32(h.version), pos + 4)
    requires DecHash(s, pos + 4) == Got(h.hashPrevBlock, pos + 36)
    requires DecHash(s, pos + 36) == Got(h.merkleRoot, pos + 68)
    requires DecNumber(s, pos + 68, 4) == Got(h.time, pos + 72)
    requires DecNumber(s, pos + 72, 4) == Got(h.bits, pos + 76)
    requires DecNumber(s, pos + 76, 4) == Got(h.nonce, pos + 80)
    ensures DecHeader(s, pos) == Got(h, pos + 80)
  {
  }

  lemma HeaderRoundTrip(s: seq<uint8>, pos: nat, h: BlockHeader)
    requires At(s, pos, EncHeader(h))
    ensures DecHeader(s, pos) == Got(h, pos + 80)
  {
    HeaderParts(s, pos, h);
    WordRoundTrip(s, pos, Unsigned32(h.version));
    WordRoundTrip(s, pos + 68, h.time);
    WordRoundTrip(s, pos + 72, h.bits);
    WordRoundTrip(s, pos + 76, h.nonce);
    HeaderReads(s, pos, h);
  }

  /** Two headers with the same bytes are the same header, so only the hash function itself can
      make two headers collide. */
  lemma HeaderInjective(g: BlockHeader, h: BlockHeader)
    requires EncHeader(g) == EncHeader(h)
    ensures g == h
  {
    var e := EncHeader(g);
    assert e[0..80] == e;
    HeaderRoundTrip(e, 0, g);
    HeaderRoundTrip(e, 0, h);
  }

  method WriteHeader(stream: StreamVector, h: BlockHeader)
    modifies stream`buffer
    ensures stream.buffer == old(stream.buffer) + EncHeader(h)
  {
    PowerValues();
    Associate6(stream.buffer, LE(Unsigned32(h.version), 4), h.hashPrevBlock, h.merkleRoot,
               LE(h.time, 4), LE(h.bits, 4), LE(h.nonce, 4));
    WriteNumber(stream, Unsigned32(h.version), 4);
    stream.Write(h.hashPrevBlock);
    stream.Write(h.merkleRoot);
    WriteNumber(stream, h.time, 4);
    WriteNumber(stream, h.bits, 4);
    WriteNumber(stream, h.nonce, 4);
  }

  method ReadHeader(stream: StreamVector) returns (r: Parsed<BlockHeader>)
    modifies stream`pos
    ensures r == DecHeader(stream.buffer, old(stream.pos)) && stream.pos == r.next
  {
    PowerValues();
    var version := ReadNumber(stream, 4);
    if version.Thrown? { return Thrown(version.next); }
    var prev := ReadHash(stream);
    if prev.Thrown? { return Thrown(prev.next); }
    var merkle := ReadHash(stream);
    if merkle.Thrown? { return Thrown(merkle.next); }
    var time := ReadNumber(stream, 4);
    if time.Thrown? { return Thrown(time.next); }
    var bits := ReadNumber(stream, 4);
    if bits.Thrown? { return Thrown(bits.next); }
    var nonce := ReadNumber(stream, 4);
    if nonce.Thrown? { return Thrown(nonce.next); }
    r := Got(BlockHeader(Signed32(version.value), prev.value, merkle.value, time.value, bits.value, nonce.value),
             stream.pos);
  }

  // ---------- blocks ----------

  function EncBlock(b: Block): (e: seq<uint8>)
    ensures |e| > 80
  {
    EncHeader(b.header) + EncVector(Transactions(), b.transactions)
  }

  function DecBlock(s: seq<uint8>, pos: nat): Parsed<Block> {
    var (header, p1) :- DecHeader(s, pos);
    var (transactions, p2) :- DecVector(Transactions(), s, p1);
    Got(Block(header, transactions), p2)
  }

  predicate ValidBlock(b: Block) {
    |b.transactions| <= CompactSize.COMPACT_SIZE_MAX && forall tx :: tx in b.transactions ==> ValidTransaction(tx)
  }

  /** Canonical decoding: a block that is read from any byte string is, written again, exactly the
      bytes consumed. */
  lemma BlockCanonical(s: seq<uint8>, pos: nat)
    requires DecBlock(s, pos).Got?
    ensures var r := DecBlock(s, pos);
            ValidBlock(r.value) && At(s, pos, EncBlock(r.value)) && r.next == pos + |EncBlock(r.value)|
  {
    TransactionLaws();
    HeaderCanonical(s, pos);
    VectorFaithful(Transactions(), true, s, pos + 80);
    var r := DecBlock(s, pos);
    AtConcat(s, pos, EncHeader(r.value.header), EncVector(Transactions(), r.value.transactions));
  }

  lemma BlockRoundTrip(s: seq<uint8>, pos: nat, b: Block)
    requires ValidBlock(b) && At(s, pos, EncBlock(b))
    ensures DecBlock(s, pos) == Got(b, pos + |EncBlock(b)|)
  {
    TransactionLaws();
    AtConcat(s, pos, EncHeader(b.header), EncVector(Transactions(), b.transactions));
    HeaderRoundTrip(s, pos, b.header);
    VectorRoundTrip(Transactions(), b.transactions, s, pos + 80);
  }

  /** No strict prefix of a written block is accepted. */
  lemma BlockPrefixRejected(b: Block, n: nat)
    requires ValidBlock(b) && n < |EncBlock(b)|
    ensures DecBlock(EncBlock(b)[..n], 0).Thrown?
  {
    var e := EncBlock(b);
    var cut := DecBlock(e[..n], 0);
    if cut.Got? {
      BlockCanonical(e[..n], 0);
      var e' := EncBlock(cut.value);
      assert e[0..|e'|] == e[..n][0..|e'|] == e' && e[0..|e|] == e;
      BlockRoundTrip(e, 0, cut.value);
      BlockRoundTrip(e, 0, b);
      assert false;
    }
  }

  predicate WritableBlock(b: Block) {
    |b.transactions| < 0x1_0000_0000_0000_0000 && forall tx :: tx in b.transactions ==> WritableTransaction(tx)
  }

  method WriteBlock(stream: StreamVector, b: Block)
    requires WritableBlock(b)
    modifies stream`buffer
    ensures stream.buffer == old(stream.buffer) + EncBlock(b)
  {
    Associate4(stream.buffer, EncHeader(b.header), EncVector(Transactions(), b.transactions), [], []);
    WriteHeader(stream, b.header);
    WriteTransactions(stream, b.transactions);
  }

  method ReadBlock(stream: StreamVector, sizes: Sizes) returns (r: Parsed<Block>)
    requires ValidSizes(sizes)
    modifies stream`pos
    ensures r == DecBlock(stream.buffer, old(stream.pos)) && stream.pos == r.next
  {
    var header := ReadHeader(stream);
    if header.Thrown? { return Thrown(header.next); }
    var transactions := ReadTransactions(stream, sizes);
    if transactions.Thrown? { return Thrown(transactions.next); }
    r := Got(Block(header.value, transactions.value), stream.pos);
  }

  // ---------- where the fields stand ----------

  lemma WordInPlace(s: seq<uint8>, pos: nat)
    requires DecNumber(s, pos, 4).Got?
    ensures pos + 4 <= |s| && DecNumber(s, pos, 4) == Got(Spelled4(s, pos), pos + 4)
  {
    FromLE4(s, pos);
  }

  /** An input: 32 bytes of id, four of index, the script with its length, four of sequence. */
  lemma InputInPlace(s: seq<uint8>, pos: nat)
    requires DecInput(s, pos).Got?
    ensures var i, next := DecInput(s, pos).value, DecInput(s, pos).next;
            var size := CompactSize.Dec(s, pos + 36);
            && pos + 36 <= |s| && i.txInID == s[pos..pos + 32] && i.txInIndex == Spelled4(s, pos + 32)
            && size.Got? && size.next + size.value + 4 == next <= |s|
            && i.unlockScript == s[size.next..size.next + size.value]
            && i.sequence == Spelled4(s, next - 4)
  {
    WordInPlace(s, pos + 32);
    var size := CompactSize.Dec(s, pos + 36);
    WordInPlace(s, DecBytes(s, pos + 36).next);
    CompleteBytes(s, pos + 36, size.value, size.next);
  }

  /** An output: eight bytes of amount, the script with its length. */
  lemma OutputInPlace(s: seq<uint8>, pos: nat)
    requires DecOutput(s, pos).Got?
    ensures var o := DecOutput(s, pos).value;
            && pos + 8 <= |s| && (o.amount - Spelled8(s, pos)) % 0x1_0000_0000_0000_0000 == 0
            && DecBytes(s, pos + 8) == Got(o.lockScript, DecOutput(s, pos).next)
  {
    PowerValues();
    FromLE8(s, pos);
    SignedIsCongruent(0, Spelled8(s, pos));
  }

  /** A transaction: four bytes of version, the inputs, the outputs, four bytes of lock time. */
  lemma TransactionInPlace(s: seq<uint8>, pos: nat) returns (p2: nat, p3: nat)
    requires DecTransaction(s, pos).Got?
    ensures var tx := DecTransaction(s, pos).value;
            && pos + 4 <= |s| && (tx.version - Spelled4(s, pos)) % 0x1_0000_0000 == 0
            && DecVector(Inputs(), s, pos + 4) == Got(tx.inputs, p2)
            && DecVector(Outputs(), s, p2) == Got(tx.outputs, p3)
            && p3 + 4 == DecTransaction(s, pos).next <= |s| && tx.lockTime == Spelled4(s, p3)
  {
    var tx;
    tx, p2, p3 := TxWasRead(Inputs(), Outputs(), s, pos);
    WordInPlace(s, pos);
    WordInPlace(s, p3);
    VersionIsCongruent(tx.version, Spelled4(s, pos));
  }

  lemma VersionIsCongruent(version: int32, x: uint32)
    requires Unsigned32(version) == x
    ensures (version - x) % 0x1_0000_0000 == 0
  {
  }

  lemma HeaderWasRead(s: seq<uint8>, pos: nat)
    requires DecHeader(s, pos).Got?
    ensures var h := DecHeader(s, pos).value;
            && DecNumber(s, pos, 4).Got? && h.version == Signed32(DecNumber(s, pos, 4).value)
            && DecHash(s, pos + 4) == Got(h.hashPrevBlock, pos + 36)
            && DecHash(s, pos + 36) == Got(h.merkleRoot, pos + 68)
            && DecNumber(s, pos + 68, 4) == Got(h.time, pos + 72)
            && DecNumber(s, pos + 72, 4) == Got(h.bits, pos + 76)
            && DecNumber(s, pos + 76, 4) == Got(h.nonce, pos + 80)
  {
  }

  /** A header: four bytes of version, 32 of the parent's hash, 32 of the Merkle root, and four each
      of time, bits and nonce. */
  lemma HeaderInPlace(s: seq<uint8>, pos: nat)
    requires DecHeader(s, pos).Got?
    ensures var h := DecHeader(s, pos).value;
            && pos + 80 == DecHeader(s, pos).next <= |s|
            && (h.version - Spelled4(s, pos)) % 0x1_0000_0000 == 0
            && h.hashPrevBlock == s[pos + 4..pos + 36] && h.merkleRoot == s[pos + 36..pos + 68]
            && h.time == Spelled4(s, pos + 68) && h.bits == Spelled4(s, pos + 72)
            && h.nonce == Spelled4(s, pos + 76)
  {
    HeaderCanonical(s, pos);
    HeaderWasRead(s, pos);
    WordInPlace(s, pos);
    SignedIsCongruent(Spelled4(s, pos), 0);
    WordInPlace(s, pos + 68);
    WordInPlace(s, pos + 72);
    WordInPlace(s, pos + 76);
  }

  /** A block: a header of 80 bytes, the transactions. */
  lemma BlockInPlace(s: seq<uint8>, pos: nat)
    requires DecBlock(s, pos).Got?
    ensures var b, next := DecBlock(s, pos).value, DecBlock(s, pos).next;
            && DecHeader(s, pos) == Got(b.header, pos + 80)
            && DecVector(Transactions(), s, pos + 80) == Got(b.transactions, next)
  {
    HeaderCanonical(s, pos);
  }

  /** The hash that no block has: 32 zero bytes. */
  lemma ZeroHashIsZeros()
    ensures |ZERO_HASH| == 32 && forall i :: 0 <= i < 32 ==> ZERO_HASH[i] == 0
  {
  }
}
