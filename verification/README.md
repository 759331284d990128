# Block scanning, serialization and script classification

This project models how the program reads a block chain from the block files of a node and what it
finds there, and proves that the stages do together what they are for:

- the block files are loaded by one thread into a bounded queue and taken out by others (`Loader`);
- a resynchronizing scanner finds the blocks in a file: magic number, length, bytes (`Frames`);
- the bytes are read as blocks and transactions (`Streams`, `CompactSize`, `VarInt`, `Vectors`,
  `Chain`), and their lengths counted (`Sizes`);
- the blocks, which arrive in any order, are handed on in chain order (`Reorder` as a function of
  its state, `ScanOrder` as the class that carries it out), and cause calls on a pool of outputs
  (`Pool`);
- `Pipeline` puts these stages together;
- scripts are split into opcodes and data (`Script`) and classified (`ScriptType`);
- hashes are written and read as reversed hexadecimal numbers (`Hex`).

Besides the results that connect one function with another, each table of constants and each layout
has a law that says byte for byte what it must be (`...ByteForByte`, `...InPlace`, `...CallByCall`,
`...ByOpcodes`), so that a writer and a reader, or a method and its specification, do not rest on
each other alone.

`Bytes` holds the integer types, little-endian numbers and a few facts about lists.

The source changes streams, buffers and fields in place, and so do the methods here. Each of them is
proved equal to a function of its input or of the old state; what the program promises is proved
about these functions. Files come as a given list of byte strings; the hash of a header, the hash of
a transaction and the size in memory of a vector's elements are parameters. A thrown exception is
the result `Thrown`, with the position where the stream stopped.

What the results say, in short:

- **Order.** Whatever arrives, every block is accounted for exactly once, as handed on, waiting or
  dropped; what has been handed on is a linked chain that only grows. The final state for a list of
  distinct blocks is the same for all of its permutations if and only if no two of them have the
  same parent. With repetitions, the set of blocks alone decides what is handed on if and only if
  no linked chain of them comes to a fork or back to one of its own blocks. Any part of a chain, in
  any order and with repetitions, is handed on up to the first missing block.
- **Queue.** In every interleaving the queue keeps its bound and its order. All files are certain to
  be scanned if and only if there are two consuming threads or no file at all. `ScanOrder::Start`
  creates one, which can leave behind any number of files at the end up to four. `Scan::Start`
  creates one more than `hardware_concurrency()`, which may return 0. Under every fair schedule all
  threads come to their end.
- **Bytes.** A transaction or block that can be read is, written again, exactly the bytes consumed,
  and no strict prefix of a written one can be read. For a single output this is false, and the exact
  condition is given. A terminated `VarInt` is the encoding of the number it is read as if and only if
  its value is in the range of the type; longer ones are accepted and wrap.
- **Scripts.** The template of a script is lossless, and each standard type is one byte layout.

Where the code and its comments disagree, the model follows the code:
`libraries/script/include/script/type.h:27` gives 1 to 3 for the first number of a multi-signature
script, the code accepts 1 to 16; lines 59-61 of that file list the keys of the redeem script before
the signatures, but the code overwrites them, so that an unlocked script hash reports what the direct
form reports (`ScriptType.ScriptHashInput`).

## Model

| member | source | states |
|---|---|---|
| Reorder.StepKeeps | libraries/helper/src/scan.cpp:87-110 | One arrival keeps the invariant: what was handed on is linked from the zero hash to the tip, each waiting block is stored under its own parent, nothing waits for the tip. Emission only extends, no block is lost or duplicated, and a block is dropped exactly if another waits for its parent. |
| Reorder.RunKeeps | libraries/helper/src/scan.cpp:87-110 | On any stream the invariant holds and received = handed on + waiting + dropped, as multisets. |
| Reorder.EmissionOnlyExtends | libraries/helper/src/scan.cpp:87-110 | What has been handed on stays a prefix of what will have been, whatever arrives later. |
| Reorder.NoDoubleEmission | libraries/helper/src/scan.cpp:87-110 | With a hash that is injective and never zero on the stream, no header is handed on twice, even with repeated and forked blocks. |
| Reorder.DrainThenStep | libraries/helper/src/scan.cpp:99-109 | Draining first and then receiving a block whose parent no other block waits for is the same as putting it among the waiting ones and then draining. |
| Reorder.OnlineEqualsOffline | libraries/helper/src/scan.cpp:87-110 | Without forks, processing block by block ends in the state of collecting all blocks by parent and draining once. |
| Reorder.ForkFreeIsOrderIndependent | libraries/helper/src/scan.cpp:87-110 | Two permutations of a stream without forks end in the same state, all of it. |
| Reorder.FateIsSealed | libraries/helper/src/scan.cpp:87-110 | A block that is kept stays kept and one that is dropped stays dropped, whatever arrives later. |
| Reorder.FirstComeFirstServed | libraries/helper/src/scan.cpp:87-110 | On any stream: of all blocks with the same parent, the first to arrive is the first to be handed on, and the one that waits while none has been. |
| Reorder.ForkIsOrderDependent | libraries/helper/src/scan.cpp:89-92 | If a stream contains two different blocks with the same parent, some permutation of it ends in a different state, whatever the hash and however often blocks are repeated. |
| Reorder.OrderIndependentIffForkFree | libraries/helper/src/scan.cpp:87-110 | The final state of distinct blocks is the same for all permutations if and only if no two have the same parent. |
| Reorder.RepetitionIsOrderDependent | libraries/helper/src/scan.cpp:88-93 | Why the blocks must be distinct: a second copy of a block waits or is dropped, depending on whether the first copy was handed on or waiting. |
| Reorder.InjectiveHasNoCycle | libraries/helper/src/scan.cpp:87-110 | If the hash is injective and never zero on the blocks, no linked chain of them comes back to one of its own. |
| Reorder.EmissionStops | libraries/helper/src/scan.cpp:102-109 | On any stream, with repetitions and forks, as long as no linked chain of its blocks comes back to one of its own, no block received extends what has been handed on. |
| Reorder.SetDecidesIffNoForkNoCycle | libraries/helper/src/scan.cpp:87-110 | For any stream and any hash, what is handed on depends only on the set of blocks received, not on order or number, if and only if no linked chain of them, from the zero hash on, comes to a fork or back to one of its own blocks. |
| Reorder.ChainInAnyOrder | libraries/helper/src/scan.cpp:87-110 | Whatever part of a chain has arrived, in whatever order and however often, exactly the chain up to the first missing block has been handed on and every later block that arrived is waiting under its parent. |
| Reorder.WaitingIsExactlyTheRest | libraries/helper/src/scan.cpp:87-110 | Without repetitions the waiting blocks are exactly those that arrived from beyond the gap, keyed by parent. |
| Reorder.ChainFieldByField | libraries/helper/src/scan.cpp:88-99 | What the results call a chain, field by field: the first header names the zero hash as its parent, every other one the hash of the header before it, and the hashes are distinct and not zero. |
| Reorder.PermutationRecoversChain | libraries/helper/src/scan.cpp:87-110 | Any permutation of a chain is handed on as the chain; nothing waits and nothing is dropped. |
| ScanOrder.ScanOrder.constructor | libraries/helper/src/scan.cpp:79-81 | Nothing received, nothing handed on, the tip is the zero hash, whatever the pool has recorded before. |
| ScanOrder.ScanOrder.HandOn | libraries/helper/src/scan.cpp:99-101 | Tip, height and pool trace move on together by one block. |
| ScanOrder.ScanOrder.Insert | libraries/helper/src/scan.cpp:88-98 | A block that does not extend the tip waits under its parent, unless another one does; then it is dropped. |
| ScanOrder.ScanOrder.DrainPending | libraries/helper/src/scan.cpp:102-109 | The loop ends, in the drained state, with the tip waited for by nobody and the pool trace that of the chain. |
| ScanOrder.ScanOrder.OnBlock | libraries/helper/src/scan.cpp:87-110 | The method takes the one step of the state machine and keeps the invariant, the height and the pool trace. |
| ScanOrder.ThreadProc | libraries/helper/src/scan.cpp:9-31 | Fed by the scanner and the chunked readers, with unreadable blocks skipped, the class ends in the state of the run over all readable blocks of the files, in order. |
| ScanOrder.UnreadableIsSkipped | libraries/helper/src/scan.cpp:16-27 | A payload that cannot be read is passed over, and the blocks before and after it are read all the same. |
| ScanOrder.ReadableIsTaken | libraries/helper/src/scan.cpp:17-20 | A block is read even if other bytes follow it in its payload. |
| ScanOrder.Start | libraries/helper/src/scan.cpp:112-118 | The whole scan with its one thread: the pool has been called for the chain handed on, and then told of the end. |
| Pool.ScanFast.OnOutputs | libraries/helper/src/scan.cpp:59-62 | One call per output, numbered by position cast to 16 bits, with its script and amount. |
| Pool.ScanFast.OnInputs | libraries/helper/src/scan.cpp:64-69 | One call per input, in order. |
| Pool.ScanFast.OnTransaction | libraries/helper/src/scan.cpp:55-69 | A transaction's outputs are added before its inputs; the first transaction of a block adds no inputs. |
| Pool.ScanFast.OnBlock | libraries/helper/src/scan.cpp:52-71 | The calls of a block are those of its transactions in order, after the block's start. |
| Pool.TraceCallByCall | libraries/helper/src/scan.cpp:52-71 | The trace, call by call: a further block adds its start and, for each of its transactions in order, the start, an output call for each output with its 16-bit position, script and amount, and, after the first transaction, an input call for each input with id, 16-bit number and script. |
| Pool.CallsAreCounted | libraries/helper/src/scan.cpp:52-71 | A block causes one call, and per transaction one, one per output, and, after the first transaction, one per input. |
| Pool.StartsAreRecorded | libraries/helper/src/scan.cpp:53-58 | No block of a list and no transaction of any block is left out. |
| Pool.EveryOutputIsRecorded | libraries/helper/src/scan.cpp:59-62 | Nor is any output: it is added under its transaction's id and its position modulo 2^16, with its own script and amount. |
| Pool.EveryInputIsRecorded | libraries/helper/src/scan.cpp:64-69 | Nor is any input of a transaction after the first of its block. |
| Pool.OutputsRecorded | libraries/helper/src/scan.cpp:57-62 | Every output of every transaction is added with its id, number, script and amount. |
| Pool.InputsRecorded | libraries/helper/src/scan.cpp:64-69 | An input is added if and only if it belongs to a transaction that is not the first of its block. |
| Pool.FundedChainSpendsAfterCreate | libraries/helper/src/scan.cpp:52-71 | If every input names an output that comes no later in the chain, each input call is preceded by the call that adds the output with the same id and number. |
| Pool.FundedPrefixSpendsAfterCreate | libraries/helper/src/scan.cpp:52-71 | The same holds when only a prefix of the chain is processed. |
| Pool.NumbersIdentifyOutputs | libraries/helper/src/scan.cpp:61 | The 16-bit numbers of a transaction's outputs are distinct if and only if there are at most 65536. |
| Pool.KeyNamesOneOutput | libraries/helper/src/scan.cpp:59-67 | With distinct ids and at most 65536 outputs, an id and a number name one output only: every call that adds it carries that output's script and amount. |
| Pool.FundedChainSpendsNamedOutputs | libraries/helper/src/scan.cpp:52-71 | On a funded chain with distinct ids and at most 65536 outputs per transaction, each input call is preceded by the call with the script and amount of the very output the input names, and no call adds another under that key. |
| Pool.TracePermutes | libraries/helper/src/scan.cpp:52-71 | The same blocks cause the same pool calls, each as often, in whatever order they are handled. |
| Loader.ProducerKeeps | libraries/helper/src/block_file.cpp:43-55 | Each step of the loading thread keeps the invariant that ties files, queue, flag and the places of all threads together. |
| Loader.ConsumerKeeps | libraries/helper/src/block_file.cpp:57-115 | So does each step of any consuming thread. |
| Loader.QueueSafety | libraries/helper/include/helper/block_file.h:24-40 | In every interleaving: at most four buffers queued, no pop from an empty queue, one thread at a time inside, files = popped + queued + being pushed + unread in order, and delivered plus still in the buffer = the blocks of the files popped. |
| Loader.FalseLeavesTheQueue | libraries/helper/src/block_file.cpp:57-64 | When a call is about to return `false`, the files not popped are exactly the queue, as many as were pushed between the test and the flag read, and none if another thread has exited. |
| Loader.FullDelivery | libraries/helper/src/block_file.cpp:43-64 | With two consuming threads or more, once all have exited every file has been popped, once and in order, and all blocks delivered. |
| Loader.LoneDelivery | libraries/helper/src/scan.cpp:112-118 | A single consuming thread delivers the blocks of a prefix of the files that lacks four at most. |
| Loader.LoneConsumerCanLose | libraries/helper/src/block_file.cpp:57-60 | For any number of files that the queue can hold there is an interleaving in which a single thread exits with that many left. |
| Loader.LossIffItFitsTheQueue | libraries/helper/src/block_file.cpp:43-64 | A single thread can leave exactly k files behind if and only if there are k and k is at most four: up to four files may not be scanned at all. |
| Loader.DeliveryIffTwoConsumers | libraries/helper/src/scan.cpp:33-46 | All files are popped in every complete interleaving if and only if there are two consuming threads or no file. |
| Loader.Progress | libraries/helper/src/block_file.cpp:43-64 | In every reachable state that is not final some thread can make a step that brings the end nearer. |
| Loader.NoDeadlock | libraries/helper/src/block_file.cpp:43-64 | After any beginning, all threads can still come to their end. |
| Loader.WantedStaysWanted | libraries/helper/src/block_file.cpp:48-62 | In every reachable state a turn of some thread means progress, and stays so until it comes, unless another turn is progress; the waiting loops do not undo any. |
| Loader.FairRunsEnd | libraries/helper/src/block_file.cpp:43-64 | Under every endless schedule that gives each thread its turn again and again, all threads come to their end; with two consuming threads or more all blocks have then been delivered. |
| Frames.AfterFirstMagic | libraries/helper/src/block_file.cpp:80-93 | The inner loop stops just behind the first magic number. |
| Frames.NoMagicNoRest | libraries/helper/src/block_file.cpp:82-85 | Without a magic number it stops at the end. |
| Frames.FrameByteForByte | libraries/helper/src/block_file.cpp:80-112 | What one search makes of a buffer in which the first F9 BE B4 D9 is followed by any bytes: four of them spell a length; below 80 it is passed over, beyond the end of the buffer it is the end, and otherwise that many bytes are the block. |
| Frames.NoFrameByteForByte | libraries/helper/src/block_file.cpp:82-85 | A buffer without these four bytes holds no block. |
| Frames.BlockFile.SkipMagic | libraries/helper/src/block_file.cpp:79-93 | The loop moves the position to just behind the first magic number, in bounds. |
| Frames.BlockFile.Attempt | libraries/helper/src/block_file.cpp:79-112 | One turn finds the next block, or skips a small length, or gives the buffer up, and always moves forward. |
| Frames.BlockFile.NextBlock | libraries/helper/src/block_file.cpp:71-115 | Successive calls return exactly the blocks of the buffers in order, then `false`; every index is in bounds and the loop ends. |
| Frames.SmallLengthIsPassedOver | libraries/helper/src/block_file.cpp:100-104 | After a magic number and a length below 80 the search goes on behind the length. |
| Frames.CutShortEndsTheBuffer | libraries/helper/src/block_file.cpp:95-108 | After a length that reaches beyond the buffer, or none, the rest of the buffer is given up. |
| Frames.StoredBlocksAreFound | libraries/helper/src/block_file.cpp:71-115 | From a buffer of stored blocks of at least 80 bytes among bytes that hide no magic number, exactly these blocks are returned, in order. |
| Frames.BlocksAmongPlainBytesAreFound | libraries/helper/src/block_file.cpp:71-115 | In particular among any bytes other than 0xF9, before, between and behind the blocks. |
| Frames.FoundWasStored | libraries/helper/src/block_file.cpp:71-115 | In any buffer, whatever is returned stands there behind a magic number and its own length, has at least 80 bytes, and the scan goes on right behind it. |
| Streams.StreamVector.Write | libraries/bkbase/src/stream.cpp:25-29 | Appends, and leaves the position. |
| Streams.StreamVector.Skip | libraries/bkbase/src/stream.cpp:30-35 | Moves forward, but never beyond the end. |
| Streams.StreamVector.Read | libraries/bkbase/src/stream.cpp:36-46 | Returns what is there, which may be less than asked for, and stops at the end. |
| Streams.NumberCanonical | libraries/bkbase/include/bkbase/serialize/numeric.h:16-21 | A number is read from exactly its own little-endian bytes. |
| Streams.NumberRoundTrip | libraries/bkbase/include/bkbase/serialize/numeric.h:9-21 | A number that was written is read back. |
| Streams.WriteNumber | libraries/bkbase/include/bkbase/serialize/numeric.h:10-15 | Appends the little-endian bytes. |
| Streams.ReadNumber | libraries/bkbase/include/bkbase/serialize/numeric.h:16-21 | Reads a number, or throws on a short read with the stream at its end. |
| CompactSize.Canonical | libraries/bkbase/include/bkbase/serialize/compact_size.h:31-61 | What is read was encoded as the encoder encodes it, in no longer form. |
| CompactSize.RoundTrip | libraries/bkbase/include/bkbase/serialize/compact_size.h:16-61 | Every number up to 0x02000000 is read back, and exactly its bytes are consumed. |
| CompactSize.TooLargeIsRefused | libraries/bkbase/include/bkbase/serialize/compact_size.h:49-57 | The encoding of a larger number is refused. |
| CompactSize.AcceptsExactly | libraries/bkbase/include/bkbase/serialize/compact_size.h:31-61 | Reading succeeds if and only if the stream goes on with the encoding of some number up to 0x02000000, and returns that number. |
| CompactSize.ReadByteForByte | libraries/bkbase/include/bkbase/serialize/compact_size.h:31-61 | Below FD a byte is its own number; FD takes two bytes, for a number from 253 on; FE four, for one from 2^16 to 2^25; FF is always refused; what is missing is refused. |
| CompactSize.WrittenByteForByte | libraries/bkbase/include/bkbase/serialize/compact_size.h:16-30 | Which bytes a number is written as, for each of the four sizes. |
| CompactSize.Write | libraries/bkbase/include/bkbase/serialize/compact_size.h:16-30 | Appends the encoding of any 64-bit number. |
| CompactSize.Read | libraries/bkbase/include/bkbase/serialize/compact_size.h:31-61 | The branches of the reader are the decoding function, positions included. |
| VarInt.ValueOfEnc | libraries/bkbase/include/bkbase/serialize/varint.h:14-29 | The encoding of a number has that number as its value. |
| VarInt.EncOfValue | libraries/bkbase/include/bkbase/serialize/varint.h:31-46 | Every terminated byte string is the encoding of its value: the two are inverse bijections. |
| VarInt.WrittenByteForByte | libraries/bkbase/include/bkbase/serialize/varint.h:18-28 | A number below 128 is its own byte; any other ends in its remainder by 128, behind the bytes of one less than its quotient with the last of them marked. |
| VarInt.DecFrom | libraries/bkbase/include/bkbase/serialize/varint.h:31-46 | The reader, with its 64-bit wrap-around at each step, yields the value modulo 2^64 of the terminated string it consumes, and throws if none ends. |
| VarInt.RoundTrip | libraries/bkbase/include/bkbase/serialize/varint.h:14-46 | Every number of each unsigned type is read back, and the bytes that follow are left alone. |
| VarInt.NoIntermediateWrap | libraries/bkbase/include/bkbase/serialize/varint.h:38-43 | While a string whose value is below 2^64 is read, neither the shift nor the increment wraps. |
| VarInt.CanonicalExactlyInRange | libraries/bkbase/include/bkbase/serialize/varint.h:31-46 | Any terminated string is read up to its end as its value modulo the range of the type, and is the encoding of what was read if and only if its value is in that range. |
| VarInt.OverlongIsAccepted | libraries/bkbase/include/bkbase/serialize/varint.h:38-43 | Some byte string that is not the encoding of zero is read as zero. |
| VarInt.BufferSuffices | libraries/bkbase/include/bkbase/serialize/varint.h:16-25 | A number with more groups to come leaves room in the ten bytes of the buffer. |
| VarInt.ProduceGroups | libraries/bkbase/include/bkbase/serialize/varint.h:16-25 | The first loop fills at most ten bytes with the groups, the least significant first. |
| VarInt.Write | libraries/bkbase/include/bkbase/serialize/varint.h:14-29 | The two loops append the encoding, by way of a buffer of ten bytes that is never overrun. |
| VarInt.Read | libraries/bkbase/include/bkbase/serialize/varint.h:31-46 | The loop, and the assignment to the type, are the decoding function, positions included. |
| Vectors.BytesFaithful | libraries/bkbase/include/bkbase/serialize/vector.h:30-42 | A byte vector that is read with bytes to spare was written like this; only at the end of the stream may it have been cut short. |
| Vectors.BytesInPlace | libraries/bkbase/include/bkbase/serialize/vector.h:30-42 | A byte vector read is the bytes behind its length, as many as it says, with zeros for those that are not there. |
| Vectors.BytesRoundTrip | libraries/bkbase/include/bkbase/serialize/vector.h:9-42 | A byte vector of at most 0x02000000 bytes is read back. |
| Vectors.FillBytes | libraries/bkbase/include/bkbase/serialize/vector.h:36-41 | The chunks add up to the bytes that are there, with zeros for those that are not. |
| Vectors.WriteBytes | libraries/bkbase/include/bkbase/serialize/vector.h:9-15 | Appends length and bytes. |
| Vectors.ReadBytes | libraries/bkbase/include/bkbase/serialize/vector.h:30-42 | The chunked reader is the decoding function. |
| Vectors.VectorFaithful | libraries/bkbase/include/bkbase/serialize/vector.h:44-60 | If the elements are faithful, so is the vector: what is read was written like this, with the elements' proviso for the end of the stream. |
| Vectors.VectorInPlace | libraries/bkbase/include/bkbase/serialize/vector.h:44-60 | A vector read has as many elements as its length says, each read where the one before it ended. |
| Vectors.VectorRoundTrip | libraries/bkbase/include/bkbase/serialize/vector.h:17-60 | If the elements are read back, so is a vector of at most 0x02000000 of them. |
| Chain.ReadHash | libraries/bkbase/include/bkbase/hash.h:140-145 | Reads 32 bytes, or throws on a short read. |
| Chain.InputLaws | libraries/chain/include/chain/transaction.h:10-18 | An input that is read is, written again, the bytes consumed, even at the end of the stream; and a written one is read back. |
| Chain.InputInPlace | libraries/chain/include/chain/transaction.h:10-18 | An input is 32 bytes of id, four of index, the script behind its length, and four of sequence, all in place and little-endian. |
| Chain.WriteInput | libraries/chain/include/chain/transaction.h:10-18 | Appends the encoding of an input. |
| Chain.ReadInput | libraries/chain/include/chain/transaction.h:10-18 | The reads in order are the decoding function, and stop where the first of them throws. |
| Chain.WriteInputs | libraries/bkbase/include/bkbase/serialize/vector.h:17-23 | Appends the length and, by `WriteInput`, each of the inputs. |
| Chain.FillInputs | libraries/bkbase/include/bkbase/serialize/vector.h:48-59 | Resizing and filling chunk by chunk, for any chunk size, with `ReadInput` for each element, yields the inputs one after the other and throws where the first of them throws. |
| Chain.ReadInputs | libraries/bkbase/include/bkbase/serialize/vector.h:44-60 | The chunked reader of a vector of inputs is the decoding function. |
| Chain.OutputLaws | libraries/chain/include/chain/transaction.h:92-98 | The same for an output, unless the stream ends with it. |
| Chain.OutputInPlace | libraries/chain/include/chain/transaction.h:92-98 | An output is eight bytes of amount, little-endian and modulo 2^64, and the script. |
| Chain.OutputCanonicalUnlessCutShort | libraries/chain/include/chain/transaction.h:92-98 | An output that is read is, written again, the bytes consumed if and only if the bytes its script length announces are there. |
| Chain.CutShortOutputIsAccepted | libraries/bkbase/include/bkbase/serialize/vector.h:39 | Nine bytes that announce a script of one byte and end there are read as an output whose script is a zero byte. |
| Chain.WriteOutput | libraries/chain/include/chain/transaction.h:92-98 | Appends the encoding of an output. |
| Chain.ReadOutput | libraries/chain/include/chain/transaction.h:92-98 | The reads in order are the decoding function. |
| Chain.WriteOutputs | libraries/bkbase/include/bkbase/serialize/vector.h:17-23 | Appends the length and, by `WriteOutput`, each of the outputs. |
| Chain.FillOutputs | libraries/bkbase/include/bkbase/serialize/vector.h:48-59 | Resizing and filling chunk by chunk, for any chunk size, with `ReadOutput` for each element, yields the outputs one after the other and throws where the first of them throws. |
| Chain.ReadOutputs | libraries/bkbase/include/bkbase/serialize/vector.h:44-60 | The chunked reader of a vector of outputs is the decoding function. |
| Chain.TransactionCanonical | libraries/chain/include/chain/transaction.h:124-132 | A transaction that is read from any byte string is, written again, exactly the bytes consumed. |
| Chain.TransactionInPlace | libraries/chain/include/chain/transaction.h:124-132 | A transaction is four bytes of version, modulo 2^32, the inputs, the outputs, and four bytes of lock time. |
| Chain.TransactionRoundTrip | libraries/chain/include/chain/transaction.h:124-132 | A written transaction is read back, and nothing beyond it. |
| Chain.TransactionPrefixRejected | libraries/chain/include/chain/transaction.h:124-132 | No strict prefix of a written transaction can be read. |
| Chain.WriteTransaction | libraries/chain/include/chain/transaction.h:124-132 | Appends the encoding of a transaction. |
| Chain.ReadTransaction | libraries/chain/include/chain/transaction.h:124-132 | The reads in order are the decoding function. |
| Chain.WriteTransactions | libraries/bkbase/include/bkbase/serialize/vector.h:17-23 | Appends the length and, by `WriteTransaction`, each of the transactions. |
| Chain.FillTransactions | libraries/bkbase/include/bkbase/serialize/vector.h:48-59 | Resizing and filling chunk by chunk, for any chunk size, with `ReadTransaction` for each element, yields the transactions one after the other and throws where the first of them throws. |
| Chain.ReadTransactions | libraries/bkbase/include/bkbase/serialize/vector.h:44-60 | The chunked reader of a vector of transactions is the decoding function. |
| Chain.HeaderCanonical | libraries/chain/include/chain/block.h:10-20 | A header is read from exactly its own 80 bytes. |
| Chain.HeaderInPlace | libraries/chain/include/chain/block.h:10-20 | Where each field of a header stands in its 80 bytes. |
| Chain.ZeroHashIsZeros | libraries/bkbase/include/bkbase/hash.h:60-73 | The hash that a first block names is 32 zero bytes. |
| Chain.HeaderRoundTrip | libraries/chain/include/chain/block.h:10-20 | A written header is read back. |
| Chain.HeaderInjective | libraries/chain/include/chain/block.h:77-81 | Different headers give the hasher different bytes. |
| Chain.WriteHeader | libraries/chain/include/chain/block.h:10-20 | Appends the 80 bytes of a header. |
| Chain.ReadHeader | libraries/chain/include/chain/block.h:10-20 | The reads in order are the decoding function. |
| Chain.BlockCanonical | libraries/chain/include/chain/block.h:84-90 | A block that is read from any byte string is, written again, exactly the bytes consumed. |
| Chain.BlockInPlace | libraries/chain/include/chain/block.h:84-90 | A block is a header of 80 bytes and the vector of transactions. |
| Chain.BlockRoundTrip | libraries/chain/include/chain/block.h:84-90 | A written block is read back. |
| Chain.BlockPrefixRejected | libraries/chain/include/chain/block.h:84-90 | No strict prefix of a written block can be read. |
| Chain.WriteBlock | libraries/chain/include/chain/block.h:84-90 | Appends the encoding of a block. |
| Chain.ReadBlock | libraries/chain/include/chain/block.h:84-90 | The reads in order are the decoding function. |
| Pipeline.StoredBlocksComeBack | libraries/helper/src/block_file.cpp:71-115 | Blocks that are serialized, stored in files among other bytes, scanned and read come back unchanged and in order. |
| Pipeline.WriteThenScan | libraries/helper/src/block_file.cpp:71-115 | Any list of valid blocks of less than 2^32 bytes each, written to a file one after the other, is what the scan and the reader make of that file; no block is short enough to be skipped. |
| Sizes.CountCompactSize | libraries/bkbase/include/bkbase/serialize/compact_size.h:16-30 | The counting stream receives as many bytes as the encoding has. |
| Sizes.CountInput | libraries/bkbase/include/bkbase/stream.h:44-62 | An input counts exactly its serialized length. |
| Sizes.CountOutput | libraries/bkbase/include/bkbase/stream.h:44-62 | So does an output. |
| Sizes.CountTransaction | libraries/bkbase/include/bkbase/stream.h:44-62 | So does a transaction, each input and output counted by its own method. |
| Sizes.CountTransactions | libraries/bkbase/include/bkbase/stream.h:44-62 | So does a vector of transactions, one after the other. |
| Sizes.GetSerializeSize | libraries/bkbase/include/bkbase/stream.h:164-169 | For any block, the number of bytes that a byte vector receives for it. |
| Pipeline.DeliveredIsPrefix | libraries/helper/src/scan.cpp:112-118 | What a single thread reads is a prefix of the blocks in the files, and all of them if it leaves the queue empty. |
| Pipeline.OrderedScan | libraries/helper/src/scan.cpp:87-118 | For files that hold a funded chain in any order, in every interleaving, the ordered scan hands on the chain up to the first block not delivered, spends no output before it is created, nor, with identifiable outputs, another than the one named, and recovers the whole chain if the queue was left empty. |
| Pipeline.SharedScan | libraries/helper/src/scan.cpp:33-71 | The unordered scan with two threads or more: in every interleaving all blocks of the files are read, and in whatever order they are handled the pool receives exactly the calls they cause in file order, each as often. |
| Pipeline.NothingIsHandedOnTwice | libraries/chain/include/chain/block.h:77-81 | Whatever the files contain, if the hasher has no collisions on the serialized headers and never yields zero, no header is handed on twice. |
| Script.NextIsCanonical | libraries/script/src/parser.cpp:26-55 | A fetched instruction is well formed and stands encoded at the front of the script. |
| Script.NextOfEnc | libraries/script/src/parser.cpp:26-55 | Any encoded instruction is fetched as what it is, and the rest is left. |
| Script.BrokenIffNoInstruction | libraries/script/src/parser.cpp:31-53 | A fetch fails before the end if and only if no complete instruction starts there. |
| Script.NextByteForByte | libraries/script/src/parser.cpp:26-55 | What each first byte begins: below 4C a push of so many bytes; 4C, 4D and 4E a push whose length follows in one, two or four bytes; any other an instruction without data; and after how many bytes a push is broken. |
| Script.ParseIsLossless | libraries/script/src/parser.cpp:57-89 | The instructions and what is left over make up the script. |
| Script.ParseIsUnique | libraries/script/src/parser.cpp:57-89 | A script is a sequence of complete instructions in at most one way, and is parsed in that way. |
| Script.TemplateIsLossless | libraries/script/src/parser.cpp:57-89 | The result is 0 if and only if the script is a concatenation of complete instructions, and then template and push data give it back byte for byte. |
| Script.PushedByteForByte | libraries/script/src/parser.cpp:69-77 | The value each opcode adds: the data up to 4E, 81 for 4F, the number counted from 50 for 50 to 60, none above. |
| Script.TemplateByteForByte | libraries/script/src/parser.cpp:57-83 | Template and push data are those of the first instruction and then those of the rest. |
| Script.ErrorIsInsideTheScript | libraries/script/src/parser.cpp:85-88 | Otherwise it is a position from 1 to the length, inside the first push that is broken. |
| Script.ErrorByteForByte | libraries/script/src/parser.cpp:85-88 | The exact position: the length of the complete instructions and of the opcode and length of the broken one. |
| Script.Parser.Fetch | libraries/script/src/parser.cpp:26-55 | Fetches the next instruction and moves behind it, or fails, and the opcode tells a broken push from the end. |
| Script.Parser.FetchLength | libraries/script/src/parser.cpp:33-46 | Reads the length of a push, or fails without moving. |
| Script.Parser.AppendPushed | libraries/script/src/parser.cpp:69-77 | Each opcode up to OP_16 adds one value: its data, 0x81, or its number. |
| Script.Parser.GetTemplate | libraries/script/src/parser.cpp:57-89 | The loops return the opcodes, the values pushed and the error position, although 0xFF is both an opcode and the mark of the end. |
| ScriptType.ValueAtItsIndex | libraries/script/src/type.cpp:155 | As long as only pushes come before it, a push's value is at its own index. |
| ScriptType.PubKeyIffLayout | libraries/script/src/type.cpp:115-119 | The type is PubKey, with this key, if and only if the script is a push of a key of 33 or 65 bytes and 0xAC. |
| ScriptType.PubKeyHashIffLayout | libraries/script/src/type.cpp:120-124 | The type is PubKeyHash, with this hash, if and only if the script has the 25-byte layout around it. |
| ScriptType.ScriptHashIffLayout | libraries/script/src/type.cpp:125-129 | The type is ScriptHash, with this hash, if and only if the script has the 23-byte layout around it (BIP 16). |
| ScriptType.MultiSigIffLayout | libraries/script/src/type.cpp:141-162 | The type is MultiSig, with these two numbers and keys, if and only if the script is OP_n, m pushes of keys of 33 or 65 bytes, OP_m, 0xAE with 1 <= n <= m <= 16 (BIP 11). |
| ScriptType.OpReturnIffPushes | libraries/script/src/type.cpp:130-140 | The type is OpReturn if and only if the script is 0x6A and one or more complete pushes. |
| ScriptType.BadScriptIffNotWhole | libraries/script/src/type.cpp:109-110 | The type is BadScript if and only if the script is no concatenation of complete instructions. |
| ScriptType.OutputKinds | libraries/script/src/type.cpp:103-166 | The types a locking script can get, and that nothing is found in a bad, a non-standard or a data-carrying one. |
| ScriptType.NonStandardIffNoLayout | libraries/script/src/type.cpp:103-166 | The type is NonStandard, with nothing found, if and only if the script is a concatenation of complete instructions and has none of the five layouts. |
| ScriptType.CollectKeys | libraries/script/src/type.cpp:148-156 | The loop accepts exactly key pushes and collects their data, in bounds. |
| ScriptType.OfMultiSig | libraries/script/src/type.cpp:141-165 | The nested tests accept exactly the multi-signature form. |
| ScriptType.GetOutputType | libraries/script/src/type.cpp:103-166 | Type and info of a locking script, for every byte string; no value is taken from an empty stack. |
| ScriptType.DirectInputIffUnlocks | libraries/script/src/type.cpp:15-43 | A whole script unlocks a type if and only if it is only pushes, one, two, or OP_0 and at least one more; the info is the pushed values, for MultiSig without the first. |
| ScriptType.DirectInputByOpcodes | libraries/script/src/type.cpp:15-43 | In opcodes: one for PubKey, two for PubKeyHash, 00 and at least one more for MultiSig, none above 60; the info is the values pushed; nothing unlocks any other type. |
| ScriptType.ScriptHashInput | libraries/script/src/type.cpp:58-84 | If the last push is a redeem script of some type, the script hash is unlocked as that type exactly if the script without it unlocks the type directly, with the same info; otherwise the input is bad for that type. |
| ScriptType.ScriptHashOutcome | libraries/script/src/type.cpp:58-91 | The outcome for every whole script: non-standard without a value that is a redeem script of an unlockable type; unlocked if all is pushes and what precedes the last unlocks the type; bad for that type otherwise. |
| ScriptType.RedeemByOpcodes | libraries/script/src/type.cpp:58-91 | For each type of redeem script by name, what it asks of the opcodes, and which of PubKeyBadInput, PubKeyHashBadInput and MultiSigBadInput results otherwise; NonStandard for any other redeem script. |
| ScriptType.NoRedeemScript | libraries/script/src/type.cpp:59-60 | Without any value pushed a script hash is unlocked by nothing. |
| ScriptType.BadInputNamesTheRedeemScript | libraries/script/src/type.cpp:65-84 | Each of the three bad-input types results only from a redeem script of its own type. |
| ScriptType.TrailingInstructionIsBadInput | libraries/script/src/type.cpp:58-87 | With an instruction that is no push a script hash is never unlocked: the input is bad for the type of the last value, or non-standard. |
| ScriptType.UnlockedByPushesOnly | libraries/script/src/type.cpp:45-101 | Whenever the result is PubKey, PubKeyHash or MultiSig, every opcode is at most OP_16, in both paths, and in the script-hash path the last push classifies as that type. |
| ScriptType.InputKinds | libraries/script/src/type.cpp:45-101 | Which types can result, and that BadScript results if and only if it was asked for or the script is no concatenation of complete instructions. |
| ScriptType.GetInputForm | libraries/script/src/type.cpp:15-43 | The switch accepts exactly the forms of the three types. |
| ScriptType.GetInputType | libraries/script/src/type.cpp:45-101 | Type and info of an unlocking script, for every byte string and every type asked for. |
| Hex.ReverseBinIsTheNumber | libraries/bkbase/src/hex.cpp:93-116 | Into a zeroed buffer of any size the number spelled by the digits is written, modulo 256^size, for any count of digits, odd ones too. |
| Hex.DigitsCharacterByCharacter | libraries/bkbase/src/hex.cpp:4-64 | The sixteen digits in lower and upper case, their values, and that no other character has one. |
| Hex.DigitsBehindPrefix | libraries/bkbase/src/hex.cpp:94-105 | Leading spaces of the six kinds and a 0x or 0X are skipped, and the digits end at the first character that is none. |
| Hex.DigitsWithoutPrefix | libraries/bkbase/src/hex.cpp:94-105 | The same without 0x. |
| Hex.ReverseBinDigitByDigit | libraries/bkbase/src/hex.cpp:106-115 | Byte k is the two digits that are 2k from the end, a missing one counting as zero, and how many bytes there are. |
| Hex.ReverseHexRoundTrip | libraries/bkbase/src/hex.cpp:93-127 | Writing any bytes as digits and reading these gives the bytes back. |
| Hex.ReverseHexByteByByte | libraries/bkbase/src/hex.cpp:118-127 | Two lower-case digits for each byte, the last byte first. |
| Hex.SkipToDigits | libraries/bkbase/src/hex.cpp:94-99 | Skips leading spaces and one 0x. |
| Hex.FindEnd | libraries/bkbase/src/hex.cpp:101-105 | Finds the longest run of digits. |
| Hex.ConvertDigits | libraries/bkbase/src/hex.cpp:106-115 | Pairs of digits from the end become the bytes of the number, and the rest of the buffer is untouched. |
| Hex.HexToReverseBin | libraries/bkbase/src/hex.cpp:93-116 | Writes the bytes of the number to the front of the buffer and returns how many. |
| Hex.HexFromReverseBin | libraries/bkbase/src/hex.cpp:118-127 | Returns the digits, the last byte first. |

## Left out

- Loader.QueueSafety: the queue, the flag and the threads are values of a state machine, not objects with locks; each locked operation and each access to the flag is one atomic step, although the flag is a plain `bool` in the code.
- Loader.FairRunsEnd: a file is loaded in one step; that the file system comes to an end is assumed by the list of files being finite.
- Frames.BlockFile.NextBlock: the buffers come from a list, and `false` from the loader means that it is used up; the list stands for the buffers popped before the `false`, early or not, which `Loader` and `Pipeline.OrderedScan` relate to the files. The handler in `NextBlock` that turns any exception into `false` is not modelled, since the scanner stays within its buffer.
- Reorder.OrderIndependentIffForkFree: is about distinct blocks; `Reorder.RepetitionIsOrderDependent` shows why, and `Reorder.SetDecidesIffNoForkNoCycle` is about streams with repetitions.
- ScanOrder.ThreadProc: one thread, as `ScanOrder::Start` creates it; exceptions thrown by the pool are not modelled.
- Pipeline.SharedScan: a block is handled as a whole; that the calls for blocks handled at the same time can interleave does not change how often each is made.
- Script.Parser.Fetch: always returns the data; callers that pass no buffer ignore it.
- ScriptType.GetOutputType: the optional info vector is always given.
- ScriptType.GetInputType: likewise.
- `LoadNextFile`, file names, sleeping, logging, thread creation and thread names: input, output and scheduling.
- The output pool: its header is not part of this model; only the calls made on it are.
- The hash functions of OpenSSL and the elliptic curve code: foreign code; hashes are parameters.
- `HexToBin` (hex.cpp:66-81, pairs of digits with spaces allowed between them, no 0x, an odd last digit dropped) and `HexFromBin`: not used for hashes in reversed form.
- Serialization of `bool`, `float`, `double` and `char`, of maps and of pairs: not used by blocks.
- The memory management of `HashBase`: a hash is its 32 bytes, and no memory counts as zero.
- `Assemble`, `DisAssemble` and the token functions, `DigitFormatsFast`, `Machine`: unfinished in the source.
- `Condition` and `Stack`: used only by the unfinished machine.
- Order of iteration and rehashing of `unordered_map`: the code only looks up, inserts and erases.
