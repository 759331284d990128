/** libraries/helper/src/scan.cpp, `ScanOrder::OnBlock`, as a function of its state: blocks arrive in
    any order and are handed on in chain order. */
module Reorder {
  import opened Bytes
  import opened Chain

  /** The hash of a header, which stays uninterpreted. */
  type HeaderHash = BlockHeader -> Hash256

  function Prev(b: Block): Hash256 {
    b.header.hashPrevBlock
  }

  /** The tip, the blocks waiting for their parent, the blocks handed on so far, and the blocks
      that were not kept. The last two only record what has happened. */
  datatype Order = Order(last: Hash256, pending: map<Hash256, Block>, emitted: seq<Block>, dropped: seq<Block>)

  function Empty(): Order {
    Order(ZERO_HASH, map[], [], [])
  }

  function Emit(h: HeaderHash, st: Order, b: Block): Order {
    Order(h(b.header), st.pending, st.emitted + [b], st.dropped)
  }

  /** The waiting block whose parent is the tip is handed on, and becomes the tip. */
  function Advance(h: HeaderHash, st: Order): Order
    requires st.last in st.pending
  {
    Emit(h, st.(pending := st.pending - {st.last}), st.pending[st.last])
  }

  lemma AdvanceShrinks(h: HeaderHash, st: Order)
    requires st.last in st.pending
    ensures |Advance(h, st).pending| < |st.pending|
  {
    assert (st.pending - {st.last}).Keys == st.pending.Keys - {st.last};
  }

  function Drain(h: HeaderHash, st: Order): Order
    decreases |st.pending|
  {
    if st.last !in st.pending then st
    else
      AdvanceShrinks(h, st);
      Drain(h, Advance(h, st))
  }

  /** One arrival. A block whose parent is the tip is handed on, with all that were waiting for it
      in turn; any other block waits, unless another one is waiting for the same parent already. */
  function Step(h: HeaderHash, st: Order, b: Block): Order {
    if Prev(b) == st.last then Drain(h, Emit(h, st, b))
    else if Prev(b) in st.pending then st.(dropped := st.dropped + [b])
    else st.(pending := st.pending[Prev(b) := b])
  }

  function Run(h: HeaderHash, stream: seq<Block>): Order {
    if stream == [] then Empty() else Step(h, Run(h, stream[..|stream| - 1]), stream[|stream| - 1])
  }

  // ---------- what every run keeps ----------

  /** The hash that block number `i` of a chain must name as its parent. */
  function Tip(h: HeaderHash, chain: seq<Block>, i: nat): Hash256
    requires i <= |chain|
  {
    if i == 0 then ZERO_HASH else h(chain[i - 1].header)
  }

  ghost predicate LinkAt(h: HeaderHash, chain: seq<Block>, i: nat)
    requires i < |chain|
  {
    Prev(chain[i]) == Tip(h, chain, i)
  }

  /** Each block names the hash of the one before it as its parent, the first one the zero hash. */
  ghost predicate Linked(h: HeaderHash, chain: seq<Block>) {
    forall i :: 0 <= i < |chain| ==> LinkAt(h, chain, i)
  }

  /** During the drain the tip may have a block waiting. */
  ghost predicate Draining(h: HeaderHash, st: Order) {
    && Linked(h, st.emitted)
    && st.last == Tip(h, st.emitted, |st.emitted|)
    && (forall key :: key in st.pending ==> Prev(st.pending[key]) == key)
  }

  ghost predicate Inv(h: HeaderHash, st: Order) {
    Draining(h, st) && st.last !in st.pending
  }

  ghost function Held(st: Order): multiset<Block> {
    multiset(st.emitted) + multiset(st.pending.Values) + multiset(st.dropped)
  }

  lemma RemovedValue(m: map<Hash256, Block>, key: Hash256)
    requires key in m && forall k :: k in m ==> Prev(m[k]) == k
    ensures multiset(m.Values) == multiset((m - {key}).Values) + multiset{m[key]}
  {
    var rest := m - {key};
    assert m[key] !in rest.Values;
    assert m.Values == rest.Values + {m[key]} by {
      forall v | v in m.Values
        ensures v in rest.Values + {m[key]}
      {
        var k :| k in m && m[k] == v;
        assert k == key || (k in rest && rest[k] == v);
      }
    }
  }

  lemma AddedValue(m: map<Hash256, Block>, b: Block)
    requires Prev(b) !in m && forall k :: k in m ==> Prev(m[k]) == k
    ensures multiset(m[Prev(b) := b].Values) == multiset(m.Values) + multiset{b}
  {
    var more := m[Prev(b) := b];
    RemovedValue(more, Prev(b));
    assert more - {Prev(b)} == m;
  }

  lemma EmitKeeps(h: HeaderHash, st: Order, b: Block)
    requires Draining(h, st) && Prev(b) == st.last
    ensures Draining(h, Emit(h, st, b))
    ensures Held(Emit(h, st, b)) == Held(st) + multiset{b}
  {
    var e, e' := st.emitted, st.emitted + [b];
    forall i | 0 <= i < |e'|
      ensures LinkAt(h, e', i)
    {
      assert i < |e| ==> LinkAt(h, e, i);
    }
  }

  lemma AdvanceKeeps(h: HeaderHash, st: Order)
    requires Draining(h, st) && st.last in st.pending
    ensures Draining(h, Advance(h, st)) && Held(Advance(h, st)) == Held(st)
  {
    RemovedValue(st.pending, st.last);
    EmitKeeps(h, st.(pending := st.pending - {st.last}), st.pending[st.last]);
  }

  lemma {:induction false} DrainKeeps(h: HeaderHash, st: Order)
    requires Draining(h, st)
    ensures var r := Drain(h, st);
            Inv(h, r) && Held(r) == Held(st) && st.emitted <= r.emitted && r.dropped == st.dropped
    decreases |st.pending|
  {
    if st.last in st.pending {
      AdvanceKeeps(h, st);
      AdvanceShrinks(h, st);
      DrainKeeps(h, Advance(h, st));
    }
  }

  lemma WaitKeeps(h: HeaderHash, st: Order, b: Block)
    requires Inv(h, st) && Prev(b) != st.last && Prev(b) !in st.pending
    ensures var r := st.(pending := st.pending[Prev(b) := b]); Inv(h, r) && Held(r) == Held(st) + multiset{b}
  {
    AddedValue(st.pending, b);
  }

  lemma DropKeeps(h: HeaderHash, st: Order, b: Block)
    requires Inv(h, st)
    ensures var r := st.(dropped := st.dropped + [b]); Inv(h, r) && Held(r) == Held(st) + multiset{b}
  {
  }

  /** One arrival keeps the invariant, adds exactly the arriving block to what is held, takes
      nothing back, and drops the block exactly when its parent already has one waiting. */
  lemma StepKeeps(h: HeaderHash, st: Order, b: Block)
    requires Inv(h, st)
    ensures var r := Step(h, st, b);
            && Inv(h, r) && Held(r) == Held(st) + multiset{b} && st.emitted <= r.emitted
            && r.dropped == st.dropped + (if Prev(b) in st.pending then [b] else [])
  {
    if Prev(b) == st.last {
      EmitKeeps(h, st, b);
      DrainKeeps(h, Emit(h, st, b));
    } else if Prev(b) !in st.pending {
      WaitKeeps(h, st, b);
    } else {
      DropKeeps(h, st, b);
    }
  }

  /** Whatever arrives, the blocks handed on form a chain from the zero hash to the tip, every
      waiting block waits under its own parent, the tip has none waiting, and every block received
      is handed on, waiting or dropped, as often as it was received. */
  lemma {:induction false} RunKeeps(h: HeaderHash, stream: seq<Block>)
    ensures Inv(h, Run(h, stream)) && Held(Run(h, stream)) == multiset(stream)
  {
    if stream != [] {
      var init, last := stream[..|stream| - 1], stream[|stream| - 1];
      RunKeeps(h, init);
      StepKeeps(h, Run(h, init), last);
      assert stream == init + [last];
      assert multiset(stream) == multiset(init) + multiset{last};
    }
  }

  lemma RunSnoc(h: HeaderHash, stream: seq<Block>, b: Block)
    ensures Run(h, stream + [b]) == Step(h, Run(h, stream), b)
  {
    assert (stream + [b])[..|stream|] == stream;
  }

  /** Later arrivals only extend what was handed on. */
  lemma {:induction false} EmissionOnlyExtends(h: HeaderHash, stream: seq<Block>, more: seq<Block>)
    ensures Run(h, stream).emitted <= Run(h, stream + more).emitted
    decreases |more|
  {
    if more == [] {
      assert stream + more == stream;
    } else {
      var init, last := more[..|more| - 1], more[|more| - 1];
      EmissionOnlyExtends(h, stream, init);
      assert stream + more == (stream + init) + [last];
      RunKeeps(h, stream + init);
      StepKeeps(h, Run(h, stream + init), last);
      RunSnoc(h, stream + init, last);
    }
  }

  // ---------- no block twice ----------

  ghost predicate Injective(h: HeaderHash, blocks: seq<Block>) {
    && (forall a, b :: a in blocks && b in blocks && h(a.header) == h(b.header) ==> a.header == b.header)
    && (forall b :: b in blocks ==> h(b.header) != ZERO_HASH)
  }

  lemma {:induction false} LinkedHasNoRepeats(h: HeaderHash, chain: seq<Block>, i: nat, j: nat)
    requires Linked(h, chain) && Injective(h, chain) && i < j < |chain|
    ensures chain[i].header != chain[j].header
    decreases i
  {
    assert LinkAt(h, chain, i) && LinkAt(h, chain, j);
    if i > 0 {
      LinkedHasNoRepeats(h, chain, i - 1, j - 1);
    }
  }

  /** On any stream, with repeated blocks and forks, no header is handed on twice, as long as the
      hash does not collide on the stream and is never zero. */
  lemma NoDoubleEmission(h: HeaderHash, stream: seq<Block>, i: nat, j: nat)
    requires Injective(h, stream) && i < j < |Run(h, stream).emitted|
    ensures Run(h, stream).emitted[i].header != Run(h, stream).emitted[j].header
  {
    RunKeeps(h, stream);
    var e := Run(h, stream).emitted;
    forall b | b in e
      ensures b in stream
    {
      assert b in Held(Run(h, stream));
    }
    LinkedHasNoRepeats(h, e, i, j);
  }

  // ---------- when the order of arrival does not matter ----------

  /** No two arrivals name the same parent. */
  ghost predicate ForkFree(stream: seq<Block>) {
    forall i, j :: 0 <= i < j < |stream| ==> Prev(stream[i]) != Prev(stream[j])
  }

  function ByParent(stream: seq<Block>): map<Hash256, Block> {
    if stream == [] then map[]
    else ByParent(stream[..|stream| - 1])[Prev(stream[|stream| - 1]) := stream[|stream| - 1]]
  }

  lemma {:induction false} ByParentIs(stream: seq<Block>)
    requires ForkFree(stream)
    ensures var m := ByParent(stream);
            && (forall i :: 0 <= i < |stream| ==> Prev(stream[i]) in m && m[Prev(stream[i])] == stream[i])
            && (forall key :: key in m ==> m[key] in stream && Prev(m[key]) == key)
  {
    if stream != [] {
      var init, last := stream[..|stream| - 1], stream[|stream| - 1];
      assert stream == init + [last];
      ByParentIs(init);
      var m := ByParent(stream);
      forall i | 0 <= i < |stream|
        ensures Prev(stream[i]) in m && m[Prev(stream[i])] == stream[i]
      {
        if i < |init| {
          assert init[i] == stream[i] && Prev(stream[i]) != Prev(last);
        }
      }
    }
  }

  /** Putting one more block among the waiting ones before the drain, or letting it arrive after. */
  lemma {:induction false} DrainThenStep(h: HeaderHash, st: Order, b: Block)
    requires Prev(b) !in st.pending
    ensures Drain(h, st.(pending := st.pending[Prev(b) := b])) == Step(h, Drain(h, st), b)
    decreases |st.pending|
  {
    var p := Prev(b);
    var more := st.(pending := st.pending[p := b]);
    if st.last in st.pending {
      AdvanceShrinks(h, st);
      DrainThenStep(h, Advance(h, st), b);
      assert more.pending - {st.last} == (st.pending - {st.last})[p := b];
      assert Advance(h, more) == Advance(h, st).(pending := Advance(h, st).pending[p := b]);
    } else if p == st.last {
      assert more.pending - {p} == st.pending;
      assert Advance(h, more) == Emit(h, st, b);
    }
  }

  /** Working on arrival is the same as collecting all blocks first and linking them at the end. */
  lemma {:induction false} OnlineEqualsOffline(h: HeaderHash, stream: seq<Block>)
    requires ForkFree(stream)
    ensures Run(h, stream) == Drain(h, Order(ZERO_HASH, ByParent(stream), [], []))
  {
    if stream != [] {
      var init, last := stream[..|stream| - 1], stream[|stream| - 1];
      assert stream == init + [last];
      OnlineEqualsOffline(h, init);
      ByParentIs(init);
      assert Prev(last) !in ByParent(init);
      DrainThenStep(h, Order(ZERO_HASH, ByParent(init), [], []), last);
    }
  }

  ghost predicate SameOutcome(a: Order, b: Order) {
    a.last == b.last && a.pending == b.pending && a.emitted == b.emitted
  }

  /** Every order of arrival of the same blocks ends in the same state. */
  ghost predicate OrderIndependent(h: HeaderHash, stream: seq<Block>) {
    forall t: seq<Block> :: multiset(t) == multiset(stream) ==> SameOutcome(Run(h, t), Run(h, stream))
  }

  lemma SameElements(s: seq<Block>, t: seq<Block>)
    requires multiset(s) == multiset(t)
    ensures forall b :: b in s <==> b in t
  {
    forall b
      ensures b in s <==> b in t
    {
      assert b in s <==> b in multiset(s);
    }
  }

  lemma {:induction false} ForkFreeCounts(s: seq<Block>)
    requires ForkFree(s)
    ensures forall a, b :: a in s && b in s && Prev(a) == Prev(b) ==> a == b
    ensures forall b :: multiset(s)[b] <= 1
  {
    if s != [] {
      var init, last := s[..|s| - 1], s[|s| - 1];
      assert s == init + [last];
      ForkFreeCounts(init);
      assert last !in init;
    }
  }

  lemma {:induction false} CountsForkFree(s: seq<Block>)
    requires forall a, b :: a in s && b in s && Prev(a) == Prev(b) ==> a == b
    requires forall b :: multiset(s)[b] <= 1
    ensures ForkFree(s)
  {
    if s != [] {
      var init, last := s[..|s| - 1], s[|s| - 1];
      assert s == init + [last];
      forall b
        ensures multiset(init)[b] <= 1
      {
        assert multiset(s)[b] == multiset(init)[b] + multiset{last}[b];
      }
      CountsForkFree(init);
      assert last !in init by {
        assert multiset(s)[last] == multiset(init)[last] + 1;
      }
    }
  }

  lemma ForkFreePermutes(s: seq<Block>, t: seq<Block>)
    requires ForkFree(s) && multiset(s) == multiset(t)
    ensures ForkFree(t)
  {
    ForkFreeCounts(s);
    SameElements(s, t);
    CountsForkFree(t);
  }

  lemma ForkFreeIsOrderIndependent(h: HeaderHash, s: seq<Block>, t: seq<Block>)
    requires ForkFree(s) && multiset(s) == multiset(t)
    ensures Run(h, s) == Run(h, t)
  {
    ForkFreePermutes(s, t);
    ByParentIs(s);
    ByParentIs(t);
    SameElements(s, t);
    var m, n := ByParent(s), ByParent(t);
    assert m == n by {
      forall key
        ensures key in m <==> key in n
        ensures key in m ==> m[key] == n[key]
      {
        if key in m {
          assert m[key] in t;
        }
        if key in n {
          assert n[key] in s;
        }
      }
    }
    OnlineEqualsOffline(h, s);
    OnlineEqualsOffline(h, t);
  }

  // ---------- forks make the order matter ----------

  ghost predicate Kept(st: Order, b: Block) {
    b in st.emitted || b in st.pending.Values
  }

  lemma {:induction false} DrainStillKeeps(h: HeaderHash, st: Order, b: Block)
    requires Kept(st, b)
    ensures Kept(Drain(h, st), b)
    decreases |st.pending|
  {
    if st.last in st.pending {
      AdvanceShrinks(h, st);
      if b !in st.emitted {
        var key :| key in st.pending && st.pending[key] == b;
        if key != st.last {
          assert key in st.pending - {st.last} && (st.pending - {st.last})[key] == b;
        }
      }
      DrainStillKeeps(h, Advance(h, st), b);
    }
  }

  lemma StepStillKeeps(h: HeaderHash, st: Order, a: Block, b: Block)
    requires Kept(st, b)
    ensures Kept(Step(h, st, a), b)
  {
    if Prev(a) == st.last {
      DrainStillKeeps(h, Emit(h, st, a), b);
    } else if Prev(a) !in st.pending && b !in st.emitted {
      var key :| key in st.pending && st.pending[key] == b;
      assert key in st.pending[Prev(a) := a] && st.pending[Prev(a) := a][key] == b;
    }
  }

  /** A block that is kept stays kept, and one that is dropped stays dropped. */
  lemma {:induction false} FateIsSealed(h: HeaderHash, stream: seq<Block>, more: seq<Block>, b: Block)
    ensures Kept(Run(h, stream), b) ==> Kept(Run(h, stream + more), b)
    ensures b in Run(h, stream).dropped ==> b in Run(h, stream + more).dropped
    decreases |more|
  {
    if more == [] {
      assert stream + more == stream;
    } else {
      var init, last := more[..|more| - 1], more[|more| - 1];
      FateIsSealed(h, stream, init, b);
      assert stream + more == (stream + init) + [last];
      RunSnoc(h, stream + init, last);
      RunKeeps(h, stream + init);
      StepKeeps(h, Run(h, stream + init), last);
      if Kept(Run(h, stream + init), b) {
        StepStillKeeps(h, Run(h, stream + init), last, b);
      }
    }
  }

  /** `a` is the first block of `chain` with parent `p`, and stands at `i`. */
  ghost predicate FirstAt(chain: seq<Block>, p: Hash256, a: Block, i: nat) {
    i < |chain| && chain[i] == a && forall j :: 0 <= j < i ==> Prev(chain[j]) != p
  }

  ghost predicate HandedOnFirst(st: Order, p: Hash256, a: Block) {
    exists i :: FirstAt(st.emitted, p, a, i)
  }

  ghost predicate WaitsFirst(st: Order, p: Hash256, a: Block) {
    p in st.pending && st.pending[p] == a && forall x :: x in st.emitted ==> Prev(x) != p
  }

  /** Of all blocks with parent `p`, block `a` is the first to be handed on, or else the one that
      waits while none has been. */
  ghost predicate ComesFirst(st: Order, p: Hash256, a: Block) {
    HandedOnFirst(st, p, a) || WaitsFirst(st, p, a)
  }

  lemma FirstStays(a: Order, b: Order, p: Hash256, x: Block)
    requires HandedOnFirst(a, p, x) && a.emitted <= b.emitted
    ensures HandedOnFirst(b, p, x)
  {
    var i :| FirstAt(a.emitted, p, x, i);
    assert FirstAt(b.emitted, p, x, i);
  }

  lemma AdvanceKeepsFirst(h: HeaderHash, st: Order, p: Hash256, a: Block)
    requires Draining(h, st) && st.last in st.pending && ComesFirst(st, p, a)
    ensures ComesFirst(Advance(h, st), p, a)
  {
    if HandedOnFirst(st, p, a) {
      FirstStays(st, Advance(h, st), p, a);
    } else if st.last == p {
      assert FirstAt(Advance(h, st).emitted, p, a, |st.emitted|);
    }
  }

  lemma {:induction false} DrainKeepsFirst(h: HeaderHash, st: Order, p: Hash256, a: Block)
    requires Draining(h, st) && ComesFirst(st, p, a)
    ensures ComesFirst(Drain(h, st), p, a)
    decreases |st.pending|
  {
    if st.last in st.pending {
      AdvanceShrinks(h, st);
      AdvanceKeeps(h, st);
      AdvanceKeepsFirst(h, st, p, a);
      DrainKeepsFirst(h, Advance(h, st), p, a);
    }
  }

  lemma StepKeepsFirst(h: HeaderHash, st: Order, b: Block, p: Hash256, a: Block)
    requires Inv(h, st) && ComesFirst(st, p, a)
    ensures ComesFirst(Step(h, st, b), p, a)
  {
    StepKeeps(h, st, b);
    if HandedOnFirst(st, p, a) {
      FirstStays(st, Step(h, st, b), p, a);
    } else if Prev(b) == st.last {
      EmitKeeps(h, st, b);
      DrainKeepsFirst(h, Emit(h, st, b), p, a);
    }
  }

  lemma StepTakesFirst(h: HeaderHash, st: Order, a: Block)
    requires Inv(h, st) && Prev(a) !in st.pending && forall x :: x in st.emitted ==> Prev(x) != Prev(a)
    ensures ComesFirst(Step(h, st, a), Prev(a), a)
  {
    if Prev(a) == st.last {
      EmitKeeps(h, st, a);
      assert FirstAt(Emit(h, st, a).emitted, Prev(a), a, |st.emitted|);
      DrainKeepsFirst(h, Emit(h, st, a), Prev(a), a);
    }
  }

  lemma ReceivedOnly(h: HeaderHash, stream: seq<Block>, b: Block)
    requires Kept(Run(h, stream), b)
    ensures b in stream
  {
    RunKeeps(h, stream);
    assert b in Held(Run(h, stream));
  }

  /** First come, first served: of all blocks with the same parent, the first to arrive is the first
      to be handed on, and waits until then. */
  lemma {:induction false} FirstComeFirstServed(h: HeaderHash, stream: seq<Block>, i: nat)
    requires i < |stream| && forall j :: 0 <= j < i ==> Prev(stream[j]) != Prev(stream[i])
    ensures ComesFirst(Run(h, stream), Prev(stream[i]), stream[i])
  {
    var init, last := stream[..|stream| - 1], stream[|stream| - 1];
    var st, p := Run(h, init), Prev(stream[i]);
    RunKeeps(h, init);
    if i < |init| {
      FirstComeFirstServed(h, init, i);
      StepKeepsFirst(h, st, last, p, stream[i]);
    } else {
      if p in st.pending {
        ReceivedOnly(h, init, st.pending[p]);
        assert false;
      }
      forall x | x in st.emitted
        ensures Prev(x) != p
      {
        ReceivedOnly(h, init, x);
      }
      StepTakesFirst(h, st, last);
    }
  }

  lemma OneComesFirst(a: Order, b: Order, p: Hash256, x: Block, y: Block)
    requires ComesFirst(a, p, x) && ComesFirst(b, p, y) && Prev(x) == p == Prev(y) && SameOutcome(a, b)
    ensures x == y
  {
    if HandedOnFirst(a, p, x) && HandedOnFirst(b, p, y) {
      var i :| FirstAt(a.emitted, p, x, i);
      var j :| FirstAt(b.emitted, p, y, j);
    }
  }

  lemma ToFront(s: seq<Block>, i: nat, j: nat) returns (rest: seq<Block>)
    requires i < j < |s|
    ensures multiset([s[i], s[j]] + rest) == multiset(s)
    ensures multiset([s[j], s[i]] + rest) == multiset(s)
  {
    var x, y, z := s[..i], s[i + 1..j], s[j + 1..];
    rest := x + y + z;
    assert s == x + [s[i]] + y + [s[j]] + z;
  }

  /** Two different blocks with the same parent: some order of arrival ends differently, whatever
      the hash and however often blocks are repeated. */
  lemma ForkIsOrderDependent(h: HeaderHash, stream: seq<Block>, i: nat, j: nat)
    requires i < j < |stream| && Prev(stream[i]) == Prev(stream[j]) && stream[i] != stream[j]
    ensures !OrderIndependent(h, stream)
  {
    var a, b := stream[i], stream[j];
    var rest := ToFront(stream, i, j);
    var s, t := [a, b] + rest, [b, a] + rest;
    FirstComeFirstServed(h, s, 0);
    FirstComeFirstServed(h, t, 0);
    if SameOutcome(Run(h, s), Run(h, t)) {
      OneComesFirst(Run(h, s), Run(h, t), Prev(a), a, b);
      assert false;
    }
    assert !(SameOutcome(Run(h, s), Run(h, stream)) && SameOutcome(Run(h, t), Run(h, stream)));
  }

  lemma DistinctBlocks(stream: seq<Block>, i: nat, j: nat)
    requires i < j < |stream| && multiset(stream)[stream[i]] <= 1
    ensures stream[i] != stream[j]
  {
    var rest := ToFront(stream, i, j);
    assert multiset([stream[i], stream[j]] + rest) == multiset{stream[i], stream[j]} + multiset(rest);
  }

  /** Order independence, exactly: all orders of arrival of distinct blocks end in the same state if
      and only if no two of them share a parent. */
  lemma OrderIndependentIffForkFree(h: HeaderHash, stream: seq<Block>)
    requires forall b :: multiset(stream)[b] <= 1
    ensures OrderIndependent(h, stream) <==> ForkFree(stream)
  {
    if ForkFree(stream) {
      forall t: seq<Block> | multiset(t) == multiset(stream)
        ensures SameOutcome(Run(h, t), Run(h, stream))
      {
        ForkFreeIsOrderIndependent(h, stream, t);
      }
    } else {
      var i, j :| 0 <= i < j < |stream| && Prev(stream[i]) == Prev(stream[j]);
      DistinctBlocks(stream, i, j);
      ForkIsOrderDependent(h, stream, i, j);
    }
  }

  lemma LinkedPrefix(h: HeaderHash, chain: seq<Block>, k: nat)
    requires Linked(h, chain) && k <= |chain|
    ensures Linked(h, chain[..k])
  {
    forall i | 0 <= i < k
      ensures LinkAt(h, chain[..k], i)
    {
      assert LinkAt(h, chain, i);
    }
  }

  lemma {:induction false} ChainRunsThrough(h: HeaderHash, chain: seq<Block>)
    requires Linked(h, chain)
    ensures Run(h, chain) == Order(Tip(h, chain, |chain|), map[], chain, [])
  {
    if chain != [] {
      var k := |chain| - 1;
      LinkedPrefix(h, chain, k);
      ChainRunsThrough(h, chain[..k]);
      assert LinkAt(h, chain, k);
      assert chain == chain[..k] + [chain[k]];
    }
  }

  /** The child of a first block, and the first block. */
  ghost predicate IsChildOf(h: HeaderHash, c: Block, a: Block) {
    && Prev(a) == ZERO_HASH && Prev(c) == h(a.header)
    && h(a.header) != ZERO_HASH && h(c.header) != ZERO_HASH && h(c.header) != h(a.header)
  }

  lemma RepeatedAfterwards(h: HeaderHash, a: Block, c: Block)
    requires IsChildOf(h, c, a)
    ensures Run(h, [a, c, c]) == Order(h(c.header), map[h(a.header) := c], [a, c], [])
  {
    assert Linked(h, [a, c]) by {
      assert LinkAt(h, [a, c], 0) && LinkAt(h, [a, c], 1);
    }
    ChainRunsThrough(h, [a, c]);
    RunSnoc(h, [a, c], c);
    assert [a, c, c] == [a, c] + [c];
    assert map[][h(a.header) := c] == map[h(a.header) := c];
  }

  lemma DrainOnce(h: HeaderHash, st: Order)
    requires st.last in st.pending && Advance(h, st).last !in Advance(h, st).pending
    ensures Drain(h, st) == Advance(h, st)
  {
    AdvanceShrinks(h, st);
  }

  lemma WaitingIsHandedOn(h: HeaderHash, a: Block, c: Block)
    requires IsChildOf(h, c, a)
    ensures Step(h, Order(ZERO_HASH, map[h(a.header) := c], [], [c]), a) == Order(h(c.header), map[], [a, c], [c])
  {
    var st := Order(h(a.header), map[h(a.header) := c], [a], [c]);
    assert [] + [a] == [a] && [a] + [c] == [a, c];
    assert st.pending - {st.last} == map[];
    DrainOnce(h, st);
  }

  lemma RepeatedBefore(h: HeaderHash, a: Block, c: Block)
    requires IsChildOf(h, c, a)
    ensures Run(h, [c, c, a]) == Order(h(c.header), map[], [a, c], [c])
  {
    RunSnoc(h, [], c);
    RunSnoc(h, [c], c);
    RunSnoc(h, [c, c], a);
    assert [c] == [] + [c] && [c, c] == [c] + [c] && [c, c, a] == [c, c] + [a];
    assert Run(h, [c]) == Order(ZERO_HASH, map[h(a.header) := c], [], []);
    assert Run(h, [c, c]) == Order(ZERO_HASH, map[h(a.header) := c], [], [c]);
    WaitingIsHandedOn(h, a, c);
  }

  /** Repetitions matter to what is left waiting: a second copy of a block that has been handed on
      waits, but one that arrives while the first copy waits is dropped. */
  lemma RepetitionIsOrderDependent(h: HeaderHash, a: Block, c: Block)
    requires IsChildOf(h, c, a)
    ensures Run(h, [a, c, c]).pending == map[h(a.header) := c] && Run(h, [c, c, a]).pending == map[]
    ensures !OrderIndependent(h, [a, c, c])
  {
    RepeatedAfterwards(h, a, c);
    RepeatedBefore(h, a, c);
    assert multiset([c, c, a]) == multiset([a, c, c]);
    assert h(a.header) in Run(h, [a, c, c]).pending && h(a.header) !in Run(h, [c, c, a]).pending;
    assert !SameOutcome(Run(h, [c, c, a]), Run(h, [a, c, c]));
  }

  // ---------- repetitions: the set of blocks decides what is handed on ----------

  /** A chain of received blocks that no received block extends. */
  ghost predicate Stops(h: HeaderHash, chain: seq<Block>, stream: seq<Block>) {
    && Linked(h, chain)
    && (forall b :: b in chain ==> b in stream)
    && (forall b :: b in stream ==> Prev(b) != Tip(h, chain, |chain|))
  }

  /** A linked chain of received blocks that one of its own blocks could continue. */
  ghost predicate CycleAfter(h: HeaderHash, stream: seq<Block>, chain: seq<Block>, i: nat) {
    i < |chain| && Linked(h, chain + [chain[i]]) && forall x :: x in chain ==> x in stream
  }

  ghost predicate NoReachableCycle(h: HeaderHash, stream: seq<Block>) {
    forall chain, i :: !CycleAfter(h, stream, chain, i)
  }

  lemma CycleNeedsCollision(h: HeaderHash, chain: seq<Block>, i: nat)
    requires i < |chain| && Linked(h, chain + [chain[i]])
    ensures !Injective(h, chain)
  {
    var more := chain + [chain[i]];
    assert LinkAt(h, more, i) && LinkAt(h, more, |chain|);
    assert more[..|chain|] == chain;
    LinkedPrefix(h, more, |chain|);
    if Injective(h, chain) && i > 0 {
      LinkedHasNoRepeats(h, chain, i - 1, |chain| - 1);
    }
  }

  /** A cycle takes a collision of the hash, or a hash of zero. */
  lemma InjectiveHasNoCycle(h: HeaderHash, stream: seq<Block>)
    requires Injective(h, stream)
    ensures NoReachableCycle(h, stream)
  {
    forall chain: seq<Block>, i: nat | CycleAfter(h, stream, chain, i)
      ensures false
    {
      CycleNeedsCollision(h, chain, i);
    }
  }

  lemma LinkedMore(h: HeaderHash, chain: seq<Block>, b: Block)
    requires Linked(h, chain) && Prev(b) == Tip(h, chain, |chain|)
    ensures Linked(h, chain + [b])
  {
    forall i | 0 <= i < |chain| + 1
      ensures LinkAt(h, chain + [b], i)
    {
      assert i < |chain| ==> LinkAt(h, chain, i);
    }
  }

  /** The block that came next the first time can come next again. */
  lemma CycleGoesOn(h: HeaderHash, stream: seq<Block>, chain: seq<Block>, i: nat)
    requires CycleAfter(h, stream, chain, i)
    ensures CycleAfter(h, stream, chain + [chain[i]], i + 1)
  {
    var more := chain + [chain[i]];
    assert LinkAt(h, more, i + 1);
    LinkedMore(h, more, more[i + 1]);
  }

  lemma {:induction false} GoRound(h: HeaderHash, stream: seq<Block>, chain: seq<Block>, i: nat, n: nat)
    returns (longer: seq<Block>)
    requires CycleAfter(h, stream, chain, i)
    ensures |longer| >= n && Linked(h, longer) && forall x :: x in longer ==> x in stream
    decreases n - |chain|
  {
    if |chain| >= n {
      longer := chain;
      LinkedPrefix(h, chain + [chain[i]], |chain|);
      assert (chain + [chain[i]])[..|chain|] == chain;
    } else {
      CycleGoesOn(h, stream, chain, i);
      longer := GoRound(h, stream, chain + [chain[i]], i + 1, n);
    }
  }

  lemma {:induction false} FirstWithParent(stream: seq<Block>, p: Hash256) returns (i: nat)
    requires exists b :: b in stream && Prev(b) == p
    ensures i < |stream| && Prev(stream[i]) == p && forall j :: 0 <= j < i ==> Prev(stream[j]) != p
  {
    if Prev(stream[0]) == p {
      i := 0;
    } else {
      assert stream == [stream[0]] + stream[1..];
      var k := FirstWithParent(stream[1..], p);
      i := k + 1;
    }
  }

  lemma TipIsNoParent(h: HeaderHash, stream: seq<Block>, chain: seq<Block>, i: nat)
    requires NoReachableCycle(h, stream) && Linked(h, chain) && (forall b :: b in chain ==> b in stream)
    requires i < |chain|
    ensures Prev(chain[i]) != Tip(h, chain, |chain|)
  {
    assert !CycleAfter(h, stream, chain, i);
    if Prev(chain[i]) == Tip(h, chain, |chain|) {
      LinkedMore(h, chain, chain[i]);
      assert false;
    }
  }

  /** Whatever has been received, with repetitions and forks: no block of it has the tip as its
      parent, so the chain handed on cannot be extended. */
  lemma EmissionStops(h: HeaderHash, stream: seq<Block>)
    requires NoReachableCycle(h, stream)
    ensures Stops(h, Run(h, stream).emitted, stream)
  {
    RunKeeps(h, stream);
    var st := Run(h, stream);
    forall b | b in st.emitted
      ensures b in stream
    {
      ReceivedOnly(h, stream, b);
    }
    forall b | b in stream
      ensures Prev(b) != st.last
    {
      var i := FirstWithParent(stream, Prev(b));
      FirstComeFirstServed(h, stream, i);
      if HandedOnFirst(st, Prev(b), stream[i]) {
        var k: nat :| FirstAt(st.emitted, Prev(b), stream[i], k);
        TipIsNoParent(h, stream, st.emitted, k);
      }
    }
  }

  /** After some chain of received blocks, two different received blocks could come next. */
  ghost predicate ForkAfter(h: HeaderHash, stream: seq<Block>, chain: seq<Block>, a: Block, b: Block) {
    && Linked(h, chain + [a]) && Linked(h, chain + [b]) && a != b
    && a in stream && b in stream && forall x :: x in chain ==> x in stream
  }

  ghost predicate NoReachableFork(h: HeaderHash, stream: seq<Block>) {
    forall chain, a, b :: !ForkAfter(h, stream, chain, a, b)
  }

  lemma SameNext(h: HeaderHash, stream: seq<Block>, c: seq<Block>, d: seq<Block>, k: nat)
    requires Stops(h, c, stream) && Stops(h, d, stream) && NoReachableFork(h, stream)
    requires k < |c| && k < |d| && c[..k] == d[..k]
    ensures c[..k + 1] == d[..k + 1]
  {
    LinkedPrefix(h, c, k + 1);
    LinkedPrefix(h, d, k + 1);
    assert c[..k + 1] == c[..k] + [c[k]] && d[..k + 1] == c[..k] + [d[k]];
    forall x | x in c[..k]
      ensures x in stream
    {
      assert x in c;
    }
    assert !ForkAfter(h, stream, c[..k], c[k], d[k]);
  }

  lemma {:induction false} SamePrefix(h: HeaderHash, stream: seq<Block>, c: seq<Block>, d: seq<Block>, k: nat)
    requires Stops(h, c, stream) && Stops(h, d, stream) && NoReachableFork(h, stream)
    requires k <= |c| && k <= |d|
    ensures c[..k] == d[..k]
  {
    if k > 0 {
      SamePrefix(h, stream, c, d, k - 1);
      SameNext(h, stream, c, d, k - 1);
    }
  }

  lemma NextExtends(h: HeaderHash, c: seq<Block>, d: seq<Block>)
    requires Linked(h, d) && |c| < |d| && c == d[..|c|]
    ensures d[|c|] in d && Prev(d[|c|]) == Tip(h, c, |c|)
  {
    assert LinkAt(h, d, |c|);
  }

  lemma NotShorter(h: HeaderHash, stream: seq<Block>, c: seq<Block>, d: seq<Block>)
    requires Stops(h, c, stream) && Stops(h, d, stream) && NoReachableFork(h, stream)
    ensures |c| >= |d|
  {
    if |c| < |d| {
      SamePrefix(h, stream, c, d, |c|);
      assert c == c[..|c|];
      NextExtends(h, c, d);
      assert false;
    }
  }

  /** Without a fork to decide about, only one chain can be handed on. */
  lemma OneChainStops(h: HeaderHash, stream: seq<Block>, c: seq<Block>, d: seq<Block>)
    requires Stops(h, c, stream) && Stops(h, d, stream) && NoReachableFork(h, stream)
    ensures c == d
  {
    NotShorter(h, stream, c, d);
    NotShorter(h, stream, d, c);
    SamePrefix(h, stream, c, d, |c|);
    assert c == c[..|c|] && d == d[..|d|];
  }

  ghost predicate SameBlocks(s: seq<Block>, t: seq<Block>) {
    forall b :: b in s <==> b in t
  }

  /** What is handed on depends only on which blocks arrive, not on their order or number. */
  ghost predicate SetDecides(h: HeaderHash, stream: seq<Block>) {
    forall t: seq<Block> :: SameBlocks(t, stream) ==> Run(h, t).emitted == Run(h, stream).emitted
  }

  lemma ChainFirst(h: HeaderHash, stream: seq<Block>, chain: seq<Block>, a: Block)
    requires Linked(h, chain + [a]) && a in stream && forall x :: x in chain ==> x in stream
    ensures SameBlocks((chain + [a]) + stream, stream)
    ensures var e := Run(h, (chain + [a]) + stream).emitted; |e| > |chain| && e[|chain|] == a
  {
    ChainRunsThrough(h, chain + [a]);
    EmissionOnlyExtends(h, chain + [a], stream);
  }

  lemma ReachableForkMatters(h: HeaderHash, stream: seq<Block>, chain: seq<Block>, a: Block, b: Block)
    requires ForkAfter(h, stream, chain, a, b)
    ensures !SetDecides(h, stream)
  {
    ChainFirst(h, stream, chain, a);
    ChainFirst(h, stream, chain, b);
    if SetDecides(h, stream) {
      assert false;
    }
  }

  lemma ReachableCycleMatters(h: HeaderHash, stream: seq<Block>, chain: seq<Block>, i: nat)
    requires CycleAfter(h, stream, chain, i)
    ensures !SetDecides(h, stream)
  {
    var e := Run(h, stream).emitted;
    var longer := GoRound(h, stream, chain, i, |e| + 1);
    ChainRunsThrough(h, longer);
    EmissionOnlyExtends(h, longer, stream);
    assert SameBlocks(longer + stream, stream);
    assert |Run(h, longer + stream).emitted| > |e|;
  }

  lemma SetDecidesOneChain(h: HeaderHash, stream: seq<Block>, t: seq<Block>)
    requires NoReachableFork(h, stream) && NoReachableCycle(h, stream) && SameBlocks(t, stream)
    ensures Run(h, t).emitted == Run(h, stream).emitted
  {
    forall chain, i
      ensures !CycleAfter(h, t, chain, i)
    {
      assert !CycleAfter(h, stream, chain, i);
    }
    EmissionStops(h, stream);
    EmissionStops(h, t);
    OneChainStops(h, stream, Run(h, t).emitted, Run(h, stream).emitted);
  }

  /** On any stream and for any hash, with repetitions, forks and unconnected blocks: the set of
      blocks received decides what is handed on if and only if no linked chain of them, from the
      zero hash on, comes to a fork or back to one of its own blocks. */
  lemma SetDecidesIffNoForkNoCycle(h: HeaderHash, stream: seq<Block>)
    ensures SetDecides(h, stream) <==> NoReachableFork(h, stream) && NoReachableCycle(h, stream)
  {
    if NoReachableFork(h, stream) && NoReachableCycle(h, stream) {
      forall t: seq<Block> | SameBlocks(t, stream)
        ensures Run(h, t).emitted == Run(h, stream).emitted
      {
        SetDecidesOneChain(h, stream, t);
      }
    } else if !NoReachableFork(h, stream) {
      var chain, a, b :| ForkAfter(h, stream, chain, a, b);
      ReachableForkMatters(h, stream, chain, a, b);
    } else {
      var chain, i :| CycleAfter(h, stream, chain, i);
      ReachableCycleMatters(h, stream, chain, i);
    }
  }

  // ---------- chains ----------

  ghost predicate HashesDiffer(h: HeaderHash, chain: seq<Block>, i: nat, j: nat)
    requires i < |chain| && j < |chain|
  {
    h(chain[i].header) != h(chain[j].header)
  }

  ghost predicate IsChain(h: HeaderHash, chain: seq<Block>) {
    && Linked(h, chain)
    && (forall i, j :: 0 <= i < j < |chain| ==> HashesDiffer(h, chain, i, j))
    && (forall b :: b in chain ==> h(b.header) != ZERO_HASH)
  }

  /** A chain, field by field: the first header names the zero hash as its parent, every other one
      the hash of the header before it, and the hashes are distinct and not zero. */
  ghost predicate IsChainOfHeaders(h: HeaderHash, chain: seq<Block>) {
    && (chain != [] ==> chain[0].header.hashPrevBlock == ZERO_HASH)
    && (forall i :: 0 < i < |chain| ==> chain[i].header.hashPrevBlock == h(chain[i - 1].header))
    && (forall i, j :: 0 <= i < j < |chain| ==> h(chain[i].header) != h(chain[j].header))
    && (forall i :: 0 <= i < |chain| ==> h(chain[i].header) != ZERO_HASH)
  }

  lemma ChainHasFields(h: HeaderHash, chain: seq<Block>)
    requires IsChain(h, chain)
    ensures IsChainOfHeaders(h, chain)
  {
    assert chain != [] ==> LinkAt(h, chain, 0);
    forall i | 0 < i < |chain|
      ensures chain[i].header.hashPrevBlock == h(chain[i - 1].header)
    {
      assert LinkAt(h, chain, i);
    }
    forall i | 0 <= i < |chain|
      ensures h(chain[i].header) != ZERO_HASH
    {
      assert chain[i] in chain;
    }
    forall i, j | 0 <= i < j < |chain|
      ensures h(chain[i].header) != h(chain[j].header)
    {
      assert HashesDiffer(h, chain, i, j);
    }
  }

  lemma FieldsMakeChain(h: HeaderHash, chain: seq<Block>)
    requires IsChainOfHeaders(h, chain)
    ensures IsChain(h, chain)
  {
    forall i | 0 <= i < |chain|
      ensures LinkAt(h, chain, i)
    {
      assert i > 0 ==> chain[i].header.hashPrevBlock == h(chain[i - 1].header);
    }
    forall i, j | 0 <= i < j < |chain|
      ensures HashesDiffer(h, chain, i, j)
    {
      assert h(chain[i].header) != h(chain[j].header);
    }
  }

  lemma ChainFieldByField(h: HeaderHash, chain: seq<Block>)
    ensures IsChain(h, chain) <==> IsChainOfHeaders(h, chain)
  {
    if IsChain(h, chain) {
      ChainHasFields(h, chain);
    }
    if IsChainOfHeaders(h, chain) {
      FieldsMakeChain(h, chain);
    }
  }

  lemma TipsDiffer(h: HeaderHash, chain: seq<Block>, i: nat, j: nat)
    requires IsChain(h, chain) && i <= |chain| && j <= |chain|
    ensures Tip(h, chain, i) == Tip(h, chain, j) <==> i == j
  {
    if 0 < i < j {
      assert HashesDiffer(h, chain, i - 1, j - 1);
    } else if 0 < j < i {
      assert HashesDiffer(h, chain, j - 1, i - 1);
    }
  }

  lemma SameBlockSameNumber(h: HeaderHash, chain: seq<Block>, i: nat, j: nat)
    requires IsChain(h, chain) && i < |chain| && j < |chain|
    ensures chain[i] == chain[j] <==> i == j
  {
    if i < j {
      assert HashesDiffer(h, chain, i, j);
    } else if j < i {
      assert HashesDiffer(h, chain, j, i);
    }
  }

  /** The number of the first block of the chain, from number `i` on, that has not arrived. */
  function FirstMissing(chain: seq<Block>, arrived: seq<Block>, i: nat): (k: nat)
    requires i <= |chain|
    ensures i <= k <= |chain|
    ensures forall j :: i <= j < k ==> chain[j] in arrived
    ensures k < |chain| ==> chain[k] !in arrived
    decreases |chain| - i
  {
    if i < |chain| && chain[i] in arrived then FirstMissing(chain, arrived, i + 1) else i
  }

  ghost predicate FromChain(h: HeaderHash, chain: seq<Block>, arrived: seq<Block>, key: Hash256, b: Block) {
    exists j :: 0 <= j < |chain| && chain[j] in arrived && key == Tip(h, chain, j) && b == chain[j]
  }

  ghost predicate WaitsFor(h: HeaderHash, chain: seq<Block>, m: map<Hash256, Block>, j: nat)
    requires j < |chain|
  {
    Tip(h, chain, j) in m && m[Tip(h, chain, j)] == chain[j]
  }

  /** What waits, once the first `i` blocks have been handed on: the later ones that have arrived,
      and perhaps further copies of earlier ones. */
  ghost predicate Waiting(h: HeaderHash, chain: seq<Block>, arrived: seq<Block>, i: nat, m: map<Hash256, Block>)
    requires i <= |chain|
  {
    && (forall key :: key in m ==> FromChain(h, chain, arrived, key, m[key]))
    && (forall j :: i <= j < |chain| && chain[j] in arrived ==> WaitsFor(h, chain, m, j))
  }

  lemma RemoveTip(h: HeaderHash, chain: seq<Block>, arrived: seq<Block>, i: nat, m: map<Hash256, Block>)
    requires IsChain(h, chain) && i < |chain| && Waiting(h, chain, arrived, i, m)
    ensures Waiting(h, chain, arrived, i + 1, m - {Tip(h, chain, i)})
  {
    forall j | i + 1 <= j < |chain| && chain[j] in arrived
      ensures WaitsFor(h, chain, m - {Tip(h, chain, i)}, j)
    {
      TipsDiffer(h, chain, i, j);
      assert WaitsFor(h, chain, m, j);
    }
  }

  lemma AdvanceOnChain(h: HeaderHash, chain: seq<Block>, arrived: seq<Block>, i: nat, st: Order)
    requires IsChain(h, chain) && i < |chain| && chain[i] in arrived
    requires st.emitted == chain[..i] && st.last == Tip(h, chain, i) && Waiting(h, chain, arrived, i, st.pending)
    ensures st.last in st.pending
    ensures var next := Advance(h, st);
            && next.emitted == chain[..i + 1] && next.last == Tip(h, chain, i + 1)
            && Waiting(h, chain, arrived, i + 1, next.pending)
  {
    assert WaitsFor(h, chain, st.pending, i);
    RemoveTip(h, chain, arrived, i, st.pending);
    assert chain[..i + 1] == chain[..i] + [chain[i]];
  }

  lemma FirstMissingIs(chain: seq<Block>, arrived: seq<Block>, i: nat, k: nat)
    requires i <= k <= |chain| && (forall j :: i <= j < k ==> chain[j] in arrived)
    requires k < |chain| ==> chain[k] !in arrived
    ensures FirstMissing(chain, arrived, i) == k
  {
  }

  lemma NoneWaits(h: HeaderHash, chain: seq<Block>, arrived: seq<Block>, i: nat, m: map<Hash256, Block>)
    requires IsChain(h, chain) && i <= |chain| && Waiting(h, chain, arrived, i, m)
    requires i < |chain| ==> chain[i] !in arrived
    ensures Tip(h, chain, i) !in m
  {
    if Tip(h, chain, i) in m {
      assert FromChain(h, chain, arrived, Tip(h, chain, i), m[Tip(h, chain, i)]);
      var j :| 0 <= j < |chain| && chain[j] in arrived && Tip(h, chain, i) == Tip(h, chain, j);
      TipsDiffer(h, chain, i, j);
      assert false;
    }
  }

  lemma {:induction false} DrainOnChain(h: HeaderHash, chain: seq<Block>, arrived: seq<Block>, i: nat, st: Order)
    requires IsChain(h, chain) && i <= |chain|
    requires st.emitted == chain[..i] && st.last == Tip(h, chain, i) && Waiting(h, chain, arrived, i, st.pending)
    ensures var r, k := Drain(h, st), FirstMissing(chain, arrived, i);
            r.emitted == chain[..k] && r.last == Tip(h, chain, k) && Waiting(h, chain, arrived, k, r.pending)
    decreases |chain| - i
  {
    if i < |chain| && chain[i] in arrived {
      AdvanceOnChain(h, chain, arrived, i, st);
      AdvanceShrinks(h, st);
      DrainOnChain(h, chain, arrived, i + 1, Advance(h, st));
    } else {
      NoneWaits(h, chain, arrived, i, st.pending);
    }
  }

  /** Where the state must stand when the blocks in `arrived`, all of the chain, have arrived. */
  ghost predicate OnChain(h: HeaderHash, chain: seq<Block>, arrived: seq<Block>, st: Order) {
    var k := FirstMissing(chain, arrived, 0);
    st.emitted == chain[..k] && st.last == Tip(h, chain, k) && Waiting(h, chain, arrived, k, st.pending)
  }

  lemma MoreWaiting(h: HeaderHash, chain: seq<Block>, arrived: seq<Block>, i: nat, k: nat,
                    m: map<Hash256, Block>, b: Block)
    requires i <= k <= |chain| && Waiting(h, chain, arrived, i, m)
    requires forall j :: k <= j < |chain| ==> chain[j] != b
    ensures Waiting(h, chain, arrived + [b], k, m)
  {
    forall key | key in m
      ensures FromChain(h, chain, arrived + [b], key, m[key])
    {
      assert FromChain(h, chain, arrived, key, m[key]);
    }
  }

  /** The missing block arrives. */
  lemma StepAtTip(h: HeaderHash, chain: seq<Block>, arrived: seq<Block>, st: Order)
    requires IsChain(h, chain) && OnChain(h, chain, arrived, st)
    requires FirstMissing(chain, arrived, 0) < |chain|
    ensures var b := chain[FirstMissing(chain, arrived, 0)];
            OnChain(h, chain, arrived + [b], Step(h, st, b))
  {
    var k := FirstMissing(chain, arrived, 0);
    var b, all := chain[k], arrived + [chain[k]];
    assert LinkAt(h, chain, k);
    forall j | k + 1 <= j < |chain|
      ensures chain[j] != b
    {
      SameBlockSameNumber(h, chain, j, k);
    }
    MoreWaiting(h, chain, arrived, k, k + 1, st.pending, b);
    assert chain[..k + 1] == chain[..k] + [b];
    DrainOnChain(h, chain, all, k + 1, Emit(h, st, b));
    FirstMissingIs(chain, all, 0, FirstMissing(chain, all, k + 1));
  }

  lemma ArrivalWaits(h: HeaderHash, chain: seq<Block>, arrived: seq<Block>, k: nat, p: map<Hash256, Block>, m: nat)
    requires IsChain(h, chain) && k <= |chain| && m < |chain| && Waiting(h, chain, arrived, k, p)
    ensures var tip := Tip(h, chain, m);
            Waiting(h, chain, arrived + [chain[m]], k, if tip in p then p else p[tip := chain[m]])
  {
    var tip, all := Tip(h, chain, m), arrived + [chain[m]];
    var q := if tip in p then p else p[tip := chain[m]];
    forall key | key in q
      ensures FromChain(h, chain, all, key, q[key])
    {
      if key in p {
        assert FromChain(h, chain, arrived, key, p[key]);
      } else {
        assert chain[m] in all;
      }
    }
    forall j | k <= j < |chain| && chain[j] in all
      ensures WaitsFor(h, chain, q, j)
    {
      TipsDiffer(h, chain, j, m);
      SameBlockSameNumber(h, chain, j, m);
      if j != m {
        assert WaitsFor(h, chain, p, j);
      } else if tip in p {
        assert FromChain(h, chain, arrived, tip, p[tip]);
        var i :| 0 <= i < |chain| && chain[i] in arrived && tip == Tip(h, chain, i) && p[tip] == chain[i];
        TipsDiffer(h, chain, i, m);
      }
    }
  }

  /** Any other block of the chain arrives. */
  lemma StepElsewhere(h: HeaderHash, chain: seq<Block>, arrived: seq<Block>, st: Order, m: nat)
    requires IsChain(h, chain) && OnChain(h, chain, arrived, st)
    requires m < |chain| && m != FirstMissing(chain, arrived, 0)
    ensures OnChain(h, chain, arrived + [chain[m]], Step(h, st, chain[m]))
  {
    var k := FirstMissing(chain, arrived, 0);
    assert LinkAt(h, chain, m);
    TipsDiffer(h, chain, m, k);
    if k < |chain| {
      SameBlockSameNumber(h, chain, m, k);
    }
    FirstMissingIs(chain, arrived + [chain[m]], 0, k);
    ArrivalWaits(h, chain, arrived, k, st.pending, m);
  }

  /** Whatever part of a chain has arrived, in whatever order and however often: what has been
      handed on is the chain up to the first block that is missing, and every later block that has
      arrived is waiting under its parent. */
  lemma {:induction false} ChainInAnyOrder(h: HeaderHash, chain: seq<Block>, stream: seq<Block>)
    requires IsChain(h, chain) && forall b :: b in stream ==> b in chain
    ensures OnChain(h, chain, stream, Run(h, stream))
  {
    if stream == [] {
      FirstMissingIs(chain, [], 0, 0);
    } else {
      var init, last := stream[..|stream| - 1], stream[|stream| - 1];
      assert stream == init + [last];
      ChainInAnyOrder(h, chain, init);
      assert last in chain;
      var m :| 0 <= m < |chain| && chain[m] == last;
      if m == FirstMissing(chain, init, 0) {
        StepAtTip(h, chain, init, Run(h, init));
      } else {
        StepElsewhere(h, chain, init, Run(h, init), m);
      }
    }
  }

  lemma HandedOnOrWaiting(h: HeaderHash, stream: seq<Block>, b: Block)
    requires multiset(stream)[b] <= 1 && b in Run(h, stream).pending.Values
    ensures b !in Run(h, stream).emitted
  {
    RunKeeps(h, stream);
    var st := Run(h, stream);
    assert Held(st)[b] <= 1 && multiset(st.pending.Values)[b] == 1;
    assert b in st.emitted ==> multiset(st.emitted)[b] >= 1;
  }

  lemma WaitsBeyondTheGap(h: HeaderHash, chain: seq<Block>, arrived: seq<Block>, k: nat,
                          key: Hash256, b: Block)
    returns (j: nat)
    requires FromChain(h, chain, arrived, key, b)
    requires k <= |chain| && b !in chain[..k] && (k < |chain| ==> chain[k] !in arrived)
    ensures k < j < |chain| && chain[j] in arrived && key == Tip(h, chain, j)
  {
    j :| 0 <= j < |chain| && chain[j] in arrived && key == Tip(h, chain, j) && b == chain[j];
    TakeHas(chain, k, j);
  }

  /** Without repetitions nothing else waits: the waiting blocks are exactly those beyond the gap. */
  lemma WaitingIsExactlyTheRest(h: HeaderHash, chain: seq<Block>, stream: seq<Block>, key: Hash256)
    requires IsChain(h, chain) && (forall b :: b in stream ==> b in chain) && (forall b :: multiset(stream)[b] <= 1)
    ensures var k, m := FirstMissing(chain, stream, 0), Run(h, stream).pending;
            && (key in m <==> exists j :: k < j < |chain| && chain[j] in stream && key == Tip(h, chain, j))
            && (forall j :: k < j < |chain| && chain[j] in stream ==> WaitsFor(h, chain, m, j))
  {
    ChainInAnyOrder(h, chain, stream);
    var st := Run(h, stream);
    if key in st.pending {
      HandedOnOrWaiting(h, stream, st.pending[key]);
      var j := WaitsBeyondTheGap(h, chain, stream, FirstMissing(chain, stream, 0), key, st.pending[key]);
    }
  }

  lemma NoValuesNoKeys(m: map<Hash256, Block>)
    requires |m.Values| == 0
    ensures m == map[]
  {
    assert forall key :: key in m ==> m[key] in m.Values;
  }

  /** Any permutation of a chain is handed on as the chain, and nothing is left over. */
  lemma PermutationRecoversChain(h: HeaderHash, chain: seq<Block>, stream: seq<Block>)
    requires IsChain(h, chain) && multiset(stream) == multiset(chain)
    ensures var st := Run(h, stream);
            st.emitted == chain && st.pending == map[] && st.dropped == [] && st.last == Tip(h, chain, |chain|)
  {
    SameElements(stream, chain);
    ChainInAnyOrder(h, chain, stream);
    FirstMissingIs(chain, stream, 0, |chain|);
    RunKeeps(h, stream);
    var st := Run(h, stream);
    assert chain[..|chain|] == chain;
    assert |multiset(st.emitted)| == |chain| == |Held(st)|;
    assert |multiset(st.pending.Values)| == 0 && |multiset(st.dropped)| == 0;
    NoValuesNoKeys(st.pending);
  }
}
