/** libraries/helper/src/block_file.cpp and block_file.h: one thread loads the files into a bounded
    queue while others take them out, one at a time under a mutex, and scan them for blocks. Every
    lock-protected operation and every read or write of the end flag is one atomic step; a run is
    given by the order in which the threads take their steps. */
module Loader {
  import opened Bytes
  import opened Frames

  const MAX_BUF_COUNT := 4

  /** Where the loading thread stands: about to load, about to test for room, about to push, about
      to set the flag, or done. */
  datatype Producer =
    | Loading
    | Waiting(buf: seq<uint8>)
    | Pushing(buf: seq<uint8>)
    | Ending
    | Finished

  /** Where a consuming thread stands: outside, scanning the buffer in hand, about to test for
      emptiness, about to read the flag, about to pop, or ended by a `false`. */
  datatype Consumer = Idle | Scanning | Testing | AtFlag | AtPop | Exited

  /** `hand` is what is left of the buffer taken last. `popped`, `delivered` and `pushedSince`, the
      pushes since the last test for emptiness, only record what has happened. */
  datatype State = State(
    unread: seq<seq<uint8>>, producer: Producer, deque: seq<seq<uint8>>, reachEnd: bool,
    consumers: seq<Consumer>, hand: seq<uint8>,
    popped: seq<seq<uint8>>, delivered: seq<seq<uint8>>, pushedSince: nat)

  function Threads(n: nat): (r: seq<Consumer>)
    ensures |r| == n && forall i :: 0 <= i < n ==> r[i] == Idle
  {
    seq(n, i => Idle)
  }

  function Init(files: seq<seq<uint8>>, n: nat): State {
    State(files, Loading, [], false, Threads(n), [], [], [], 0)
  }

  /** `LoadLoop`. */
  function ProducerStep(s: State): State {
    match s.producer
    case Loading =>
      if s.unread == [] then s.(producer := Ending)
      else s.(producer := Waiting(s.unread[0]), unread := s.unread[1..])
    case Waiting(buf) => if |s.deque| >= MAX_BUF_COUNT then s else s.(producer := Pushing(buf))
    case Pushing(buf) => s.(deque := s.deque + [buf], producer := Loading, pushedSince := s.pushedSince + 1)
    case Ending => s.(reachEnd := true, producer := Finished)
    case Finished => s
  }

  /** The thread is inside `NextBlock`, holding the mutex. */
  predicate Holds(c: Consumer) {
    c.Scanning? || c.Testing? || c.AtFlag? || c.AtPop?
  }

  predicate Free(s: State) {
    forall i :: 0 <= i < |s.consumers| ==> !Holds(s.consumers[i])
  }

  function Move(s: State, i: nat, c: Consumer): State
    requires i < |s.consumers|
  {
    s.(consumers := s.consumers[i := c])
  }

  /** `NextBlock`, with `GetBuffer` inside. */
  function ConsumerStep(s: State, i: nat): (r: State)
    requires i < |s.consumers|
    ensures |r.consumers| == |s.consumers|
  {
    match s.consumers[i]
    case Idle => if Free(s) then Move(s, i, Scanning) else s
    case Scanning =>
      (match NextFrame(s.hand)
       case Frame(payload, rest) => Move(s, i, Idle).(hand := rest, delivered := s.delivered + [payload])
       case Exhausted => Move(s, i, Testing).(hand := []))
    case Testing => if s.deque == [] then Move(s, i, AtFlag).(pushedSince := 0) else Move(s, i, AtPop)
    case AtFlag => if s.reachEnd then Move(s, i, Exited) else Move(s, i, Testing)
    case AtPop =>
      if s.deque == [] then s
      else Move(s, i, Scanning).(hand := s.deque[0], deque := s.deque[1..], popped := s.popped + [s.deque[0]])
    case Exited => s
  }

  /** Whose turn it is: the loading thread's, or that of one of the consuming threads. */
  datatype Turn = Load | Consume(i: nat)

  function Step(s: State, turn: Turn): (r: State)
    ensures |r.consumers| == |s.consumers|
  {
    if turn.Consume? && turn.i < |s.consumers| then ConsumerStep(s, turn.i)
    else if turn.Load? then ProducerStep(s)
    else s
  }

  function RunFrom(s: State, schedule: seq<Turn>): (r: State)
    ensures |r.consumers| == |s.consumers|
    decreases |schedule|
  {
    if schedule == [] then s else RunFrom(Step(s, schedule[0]), schedule[1..])
  }

  function Run(files: seq<seq<uint8>>, n: nat, schedule: seq<Turn>): (r: State)
    ensures |r.consumers| == n
  {
    RunFrom(Init(files, n), schedule)
  }

  // ---------- what every interleaving keeps ----------

  function InHand(p: Producer): seq<seq<uint8>> {
    if p.Waiting? || p.Pushing? then [p.buf] else []
  }

  /** No buffer is lost, duplicated or reordered, and the queue never overflows. */
  ghost predicate QueueInv(files: seq<seq<uint8>>, s: State) {
    && files == s.popped + s.deque + InHand(s.producer) + s.unread
    && |s.deque| <= MAX_BUF_COUNT
    && (s.producer.Pushing? ==> |s.deque| < MAX_BUF_COUNT)
    && (s.producer.Ending? || s.producer.Finished? ==> s.unread == [])
    && (s.reachEnd <==> s.producer.Finished?)
  }

  /** What the place of thread `i` says about the queue and the buffer in hand. */
  ghost predicate PlaceInv(s: State, i: nat)
    requires i < |s.consumers|
  {
    var c := s.consumers[i];
    && (c.AtPop? ==> s.deque != [])
    && (c.Testing? || c.AtFlag? || c.AtPop? ==> s.hand == [])
    && (c.AtFlag? ==> |s.deque| == s.pushedSince)
    && (c.Exited? ==> s.reachEnd && (|s.consumers| == 1 ==> s.hand == []))
  }

  /** What the places of two threads say. */
  ghost predicate PairInv(s: State, i: nat, j: nat)
    requires i < |s.consumers| && j < |s.consumers| && i != j
  {
    var c, d := s.consumers[i], s.consumers[j];
    && !(Holds(c) && Holds(d))
    && (c.Exited? && d.AtFlag? ==> s.deque == [])
    && (c.Exited? && d.Exited? ==> s.deque == [] && s.hand == [])
  }

  ghost predicate Inv(files: seq<seq<uint8>>, s: State) {
    && QueueInv(files, s)
    && s.delivered + Blocks(s.hand) == AllBlocks(s.popped)
    && (forall i :: 0 <= i < |s.consumers| ==> PlaceInv(s, i))
    && (forall i, j :: 0 <= i < |s.consumers| && 0 <= j < |s.consumers| && i != j ==> PairInv(s, i, j))
  }

  lemma ProducerKeepsQueue(files: seq<seq<uint8>>, s: State)
    requires QueueInv(files, s)
    ensures QueueInv(files, ProducerStep(s))
  {
    if s.producer.Loading? && s.unread != [] {
      assert s.unread == [s.unread[0]] + s.unread[1..];
      ConcatAssociates(s.popped + s.deque, [s.unread[0]], s.unread[1..]);
    } else if s.producer.Pushing? {
      ConcatAssociates(s.popped, s.deque, [s.producer.buf]);
    }
    ConcatAssociates(s.popped + s.deque, [], []);
  }

  /** Only a push matters to the consumers, and there is none once the flag is set. */
  lemma ProducerKeeps(files: seq<seq<uint8>>, s: State)
    requires Inv(files, s)
    ensures Inv(files, ProducerStep(s))
  {
    var s' := ProducerStep(s);
    ProducerKeepsQueue(files, s);
    assert s'.deque != s.deque ==> !s.reachEnd && |s'.deque| == |s.deque| + 1 && s'.pushedSince == s.pushedSince + 1;
    forall i | 0 <= i < |s.consumers|
      ensures PlaceInv(s', i)
    {
      assert PlaceInv(s, i);
    }
    forall i, j | 0 <= i < |s.consumers| && 0 <= j < |s.consumers| && i != j
      ensures PairInv(s', i, j)
    {
      assert PairInv(s, i, j) && PlaceInv(s, i);
    }
  }

  /** What a consumer's step must be shown to keep, when only thread `i` moves. */
  lemma OneMoves(files: seq<seq<uint8>>, s: State, s': State, i: nat, c: Consumer)
    requires Inv(files, s) && i < |s.consumers|
    requires s'.consumers == s.consumers[i := c] && s'.reachEnd == s.reachEnd
    requires QueueInv(files, s') && s'.delivered + Blocks(s'.hand) == AllBlocks(s'.popped)
    requires PlaceInv(s', i)
    requires Holds(c) ==> Holds(s.consumers[i]) || Free(s)
    requires s.deque == [] ==> s'.deque == []
    requires (s'.deque == s.deque && s'.pushedSince == s.pushedSince) || Holds(s.consumers[i])
    requires s'.hand == s.hand || (Holds(s.consumers[i]) && (s'.hand == [] || s.hand != [] || s.deque != []))
    requires s'.hand == [] || |s.consumers| > 1 || !c.Exited?
    requires c.Exited? ==> s.consumers[i].Exited? || (s.consumers[i].AtFlag? && s' == Move(s, i, c))
    requires c.AtFlag? ==> s'.deque == [] || s.consumers[i].AtFlag?
    ensures Inv(files, s')
  {
    forall j | 0 <= j < |s'.consumers|
      ensures PlaceInv(s', j)
    {
      assert PlaceInv(s, j);
      if j != i {
        assert PairInv(s, i, j);
      }
    }
    forall j, k | 0 <= j < |s'.consumers| && 0 <= k < |s'.consumers| && j != k
      ensures PairInv(s', j, k)
    {
      assert PairInv(s, j, k) && PairInv(s, k, j);
      assert PlaceInv(s, i);
    }
  }

  lemma ScanningKeeps(files: seq<seq<uint8>>, s: State, i: nat)
    requires Inv(files, s) && i < |s.consumers| && s.consumers[i].Scanning?
    ensures Inv(files, ConsumerStep(s, i))
  {
    var s' := ConsumerStep(s, i);
    var found := NextFrame(s.hand);
    if found.Frame? {
      ConcatAssociates(s.delivered, [found.payload], Blocks(found.rest));
    }
    OneMoves(files, s, s', i, s'.consumers[i]);
  }

  lemma PopKeeps(files: seq<seq<uint8>>, s: State, i: nat)
    requires Inv(files, s) && i < |s.consumers| && s.consumers[i].AtPop?
    ensures Inv(files, ConsumerStep(s, i))
  {
    var s' := ConsumerStep(s, i);
    assert PlaceInv(s, i);
    assert s.deque == [s.deque[0]] + s.deque[1..];
    ConcatAssociates(s.popped, [s.deque[0]], s.deque[1..]);
    FlatMapConcat(Blocks, s.popped, [s.deque[0]]);
    FlatMapOne(Blocks, s.deque[0]);
    ConcatAssociates(s.delivered, [], []);
    OneMoves(files, s, s', i, s'.consumers[i]);
  }

  lemma ConsumerKeeps(files: seq<seq<uint8>>, s: State, i: nat)
    requires Inv(files, s) && i < |s.consumers|
    ensures Inv(files, ConsumerStep(s, i))
  {
    var s' := ConsumerStep(s, i);
    assert PlaceInv(s, i);
    if s.consumers[i].Scanning? {
      ScanningKeeps(files, s, i);
    } else if s.consumers[i].AtPop? {
      PopKeeps(files, s, i);
    } else {
      OneMoves(files, s, s', i, s'.consumers[i]);
    }
  }

  lemma StepKeeps(files: seq<seq<uint8>>, s: State, turn: Turn)
    requires Inv(files, s)
    ensures Inv(files, Step(s, turn)) && |Step(s, turn).consumers| == |s.consumers|
  {
    if turn.Load? {
      ProducerKeeps(files, s);
    } else if turn.i < |s.consumers| {
      ConsumerKeeps(files, s, turn.i);
    }
  }

  lemma {:induction false} RunFromKeeps(files: seq<seq<uint8>>, s: State, schedule: seq<Turn>)
    requires Inv(files, s)
    ensures Inv(files, RunFrom(s, schedule)) && |RunFrom(s, schedule).consumers| == |s.consumers|
    decreases |schedule|
  {
    if schedule != [] {
      StepKeeps(files, s, schedule[0]);
      RunFromKeeps(files, Step(s, schedule[0]), schedule[1..]);
    }
  }

  lemma RunKeeps(files: seq<seq<uint8>>, n: nat, schedule: seq<Turn>)
    ensures Inv(files, Run(files, n, schedule)) && |Run(files, n, schedule).consumers| == n
  {
    var s := Init(files, n);
    forall i | 0 <= i < n
      ensures PlaceInv(s, i)
    {
    }
    assert [] + files == files;
    RunFromKeeps(files, s, schedule);
  }

  /** In every interleaving the queue holds at most four buffers and is never popped when empty, and
      what was loaded is, in order, what was popped, what is queued and what is being pushed. */
  lemma QueueSafety(files: seq<seq<uint8>>, n: nat, schedule: seq<Turn>)
    ensures var s := Run(files, n, schedule);
            && files == s.popped + s.deque + InHand(s.producer) + s.unread
            && |s.deque| <= 4
            && (forall i :: 0 <= i < n ==> s.consumers[i].AtPop? ==> s.deque != [])
            && (forall i, j :: 0 <= i < j < n ==> !(Holds(s.consumers[i]) && Holds(s.consumers[j])))
            && s.delivered + Blocks(s.hand) == AllBlocks(s.popped)
  {
    RunKeeps(files, n, schedule);
    var s := Run(files, n, schedule);
    forall i | 0 <= i < n
      ensures s.consumers[i].AtPop? ==> s.deque != []
    {
      assert PlaceInv(s, i);
    }
    forall i, j | 0 <= i < j < n
      ensures !(Holds(s.consumers[i]) && Holds(s.consumers[j]))
    {
      assert PairInv(s, i, j);
    }
  }

  /** When a call is about to return `false`, what it leaves behind is exactly the queue: as many
      buffers as were pushed between its test for emptiness and its reading of the flag, and none
      once another thread has had its `false`. */
  lemma FalseLeavesTheQueue(files: seq<seq<uint8>>, n: nat, schedule: seq<Turn>, i: nat)
    requires i < n && Run(files, n, schedule).consumers[i].AtFlag? && Run(files, n, schedule).reachEnd
    ensures var s := Run(files, n, schedule);
            && ConsumerStep(s, i).consumers[i].Exited?
            && files == s.popped + s.deque
            && s.delivered == AllBlocks(s.popped)
            && |s.deque| == s.pushedSince <= 4
            && (forall j :: 0 <= j < n && s.consumers[j].Exited? ==> s.deque == [])
  {
    RunKeeps(files, n, schedule);
    var s := Run(files, n, schedule);
    assert PlaceInv(s, i);
    ConcatAssociates(s.popped + s.deque, [], []);
    ConcatAssociates(s.delivered, [], []);
    forall j | 0 <= j < n && s.consumers[j].Exited?
      ensures s.deque == []
    {
      assert PairInv(s, j, i);
    }
  }

  predicate AllExited(s: State) {
    forall i :: 0 <= i < |s.consumers| ==> s.consumers[i].Exited?
  }

  /** With two consuming threads or more nothing is left behind. */
  lemma FullDelivery(files: seq<seq<uint8>>, n: nat, schedule: seq<Turn>)
    requires n >= 2 && AllExited(Run(files, n, schedule))
    ensures Run(files, n, schedule).popped == files
    ensures Run(files, n, schedule).delivered == AllBlocks(files)
  {
    RunKeeps(files, n, schedule);
    var s := Run(files, n, schedule);
    assert PairInv(s, 0, 1) && PlaceInv(s, 0);
    ConcatAssociates(s.popped, [], []);
    ConcatAssociates(s.delivered, [], []);
  }

  /** One thread alone delivers the blocks of the files it popped, in order; up to four files at the
      end may be missing. */
  lemma LoneDelivery(files: seq<seq<uint8>>, schedule: seq<Turn>)
    requires AllExited(Run(files, 1, schedule))
    ensures var s := Run(files, 1, schedule);
            && files == s.popped + s.deque
            && |s.deque| <= 4
            && s.delivered == AllBlocks(s.popped)
  {
    RunKeeps(files, 1, schedule);
    var s := Run(files, 1, schedule);
    assert PlaceInv(s, 0);
    ConcatAssociates(s.popped + s.deque, [], []);
    ConcatAssociates(s.delivered, [], []);
  }

  // ---------- what a lone consumer can lose ----------

  lemma {:induction false} RunFromConcat(s: State, first: seq<Turn>, second: seq<Turn>)
    ensures RunFrom(s, first + second) == RunFrom(RunFrom(s, first), second)
    decreases |first|
  {
    if first == [] {
      assert first + second == second;
    } else {
      assert (first + second)[1..] == first[1..] + second;
      RunFromConcat(Step(s, first[0]), first[1..], second);
    }
  }

  lemma RunOne(s: State, t: Turn)
    ensures RunFrom(s, [t]) == Step(s, t)
  {
    assert RunFrom(s, [t]) == RunFrom(Step(s, t), []);
  }

  lemma RunTwo(s: State, t: Turn, u: Turn)
    ensures RunFrom(s, [t, u]) == Step(Step(s, t), u)
  {
    RunOne(s, t);
    RunOne(Step(s, t), u);
    assert [t, u] == [t] + [u];
    RunFromConcat(s, [t], [u]);
  }

  /** The consumer has the lock and no buffer, the queue is empty, and `unread` is still to be loaded. */
  predicate AwaitsLoad(s: State, unread: seq<seq<uint8>>) {
    s.producer.Loading? && s.unread == unread && s.deque == [] && !s.reachEnd && s.consumers == [Testing]
  }

  /** The consumer can scan its buffer to the end while the loader sleeps. */
  lemma {:induction false} ScanOut(s: State) returns (schedule: seq<Turn>)
    requires s.consumers == [Scanning] && s.producer.Loading? && s.deque == [] && !s.reachEnd
    ensures AwaitsLoad(RunFrom(s, schedule), s.unread)
    decreases |s.hand|
  {
    var s' := ConsumerStep(s, 0);
    if NextFrame(s.hand).Frame? {
      var s'' := ConsumerStep(s', 0);
      var rest := ScanOut(s'');
      schedule := [Consume(0), Consume(0)] + rest;
      RunTwo(s, Consume(0), Consume(0));
      RunFromConcat(s, [Consume(0), Consume(0)], rest);
    } else {
      schedule := [Consume(0)];
      RunOne(s, Consume(0));
    }
  }

  /** One file can go through the queue and be scanned. */
  lemma PassOneFile(s: State) returns (schedule: seq<Turn>)
    requires s.unread != [] && AwaitsLoad(s, s.unread)
    ensures AwaitsLoad(RunFrom(s, schedule), s.unread[1..])
  {
    var s1 := RunFrom(s, [Load, Load]);
    RunTwo(s, Load, Load);
    var s2 := RunFrom(s1, [Load, Consume(0)]);
    RunTwo(s1, Load, Consume(0));
    var s3 := RunFrom(s2, [Consume(0)]);
    RunOne(s2, Consume(0));
    var rest := ScanOut(s3);
    RunFromConcat(s, [Load, Load], [Load, Consume(0)]);
    RunFromConcat(s, [Load, Load] + [Load, Consume(0)], [Consume(0)]);
    schedule := [Load, Load] + [Load, Consume(0)] + [Consume(0)];
    RunFromConcat(s, schedule, rest);
    schedule := schedule + rest;
  }

  lemma {:induction false} PassAllBut(s: State, k: nat) returns (schedule: seq<Turn>)
    requires k <= |s.unread| && AwaitsLoad(s, s.unread)
    ensures |RunFrom(s, schedule).unread| == k && AwaitsLoad(RunFrom(s, schedule), RunFrom(s, schedule).unread)
    decreases |s.unread|
  {
    if |s.unread| == k {
      schedule := [];
    } else {
      var first := PassOneFile(s);
      var second := PassAllBut(RunFrom(s, first), k);
      RunFromConcat(s, first, second);
      schedule := first + second;
    }
  }

  /** The consumer has found the queue empty and is about to read the flag; `k` files are still to be
      pushed or have been since. */
  predicate AboutToLose(s: State, k: nat) {
    s.producer.Loading? && !s.reachEnd && s.consumers == [AtFlag] && |s.deque| + |s.unread| == k <= MAX_BUF_COUNT
  }

  lemma {:induction false} PushAll(s: State, k: nat) returns (schedule: seq<Turn>)
    requires AboutToLose(s, k)
    ensures AboutToLose(RunFrom(s, schedule), k) && RunFrom(s, schedule).unread == []
    decreases |s.unread|
  {
    if s.unread == [] {
      schedule := [];
    } else {
      RunTwo(s, Load, Load);
      var s' := RunFrom(s, [Load, Load]);
      RunOne(s', Load);
      RunFromConcat(s, [Load, Load], [Load]);
      var first := [Load, Load] + [Load];
      var second := PushAll(RunFrom(s, first), k);
      RunFromConcat(s, first, second);
      schedule := first + second;
    }
  }

  /** The last files are pushed, and the flag set, after the consumer has found the queue empty and
      before it reads the flag. */
  lemma LoseTheRest(s: State) returns (schedule: seq<Turn>)
    requires AwaitsLoad(s, s.unread) && |s.unread| <= MAX_BUF_COUNT
    ensures RunFrom(s, schedule).consumers == [Exited] && |RunFrom(s, schedule).deque| == |s.unread|
  {
    var s1 := RunFrom(s, [Consume(0)]);
    RunOne(s, Consume(0));
    var pushes := PushAll(s1, |s.unread|);
    var s2 := RunFrom(s1, pushes);
    RunFromConcat(s, [Consume(0)], pushes);
    var s3 := RunFrom(s2, [Load, Load]);
    RunTwo(s2, Load, Load);
    RunFromConcat(s, [Consume(0)] + pushes, [Load, Load]);
    RunOne(s3, Consume(0));
    schedule := [Consume(0)] + pushes + [Load, Load];
    RunFromConcat(s, schedule, [Consume(0)]);
    schedule := schedule + [Consume(0)];
  }

  lemma LoneConsumerCanLose(files: seq<seq<uint8>>, k: nat) returns (schedule: seq<Turn>)
    requires k <= |files| && k <= 4
    ensures AllExited(Run(files, 1, schedule)) && |Run(files, 1, schedule).deque| == k
  {
    var s := Init(files, 1);
    assert s.consumers == [Idle];
    RunTwo(s, Consume(0), Consume(0));
    NextFrameStep([]);
    var s1 := RunFrom(s, [Consume(0), Consume(0)]);
    var first := PassAllBut(s1, k);
    var s2 := RunFrom(s1, first);
    var second := LoseTheRest(s2);
    RunFromConcat(s, [Consume(0), Consume(0)], first);
    RunFromConcat(s, [Consume(0), Consume(0)] + first, second);
    schedule := [Consume(0), Consume(0)] + first + second;
  }

  ghost predicate Loses(files: seq<seq<uint8>>, schedule: seq<Turn>, k: nat) {
    AllExited(Run(files, 1, schedule)) && |Run(files, 1, schedule).deque| == k
  }

  /** Some interleaving makes a lone consumer leave exactly `k` files behind if and only if there
      are so many and the queue can hold them: up to four files may not be scanned at all. */
  lemma LossIffItFitsTheQueue(files: seq<seq<uint8>>, k: nat)
    ensures (exists schedule :: Loses(files, schedule, k)) <==> k <= |files| && k <= 4
  {
    if schedule :| Loses(files, schedule, k) {
      LoneDelivery(files, schedule);
    }
    if k <= |files| && k <= 4 {
      var schedule := LoneConsumerCanLose(files, k);
      assert Loses(files, schedule, k);
    }
  }

  /** In this interleaving, if it is a complete one, every file has been popped. */
  predicate Delivers(files: seq<seq<uint8>>, n: nat, schedule: seq<Turn>) {
    AllExited(Run(files, n, schedule)) ==> Run(files, n, schedule).popped == files
  }

  /** Delivery is certain exactly when there are two consuming threads or nothing to deliver. */
  lemma DeliveryIffTwoConsumers(files: seq<seq<uint8>>, n: nat)
    ensures (forall schedule :: Delivers(files, n, schedule)) <==> n >= 2 || files == []
  {
    if n >= 2 {
      forall schedule
        ensures Delivers(files, n, schedule)
      {
        if AllExited(Run(files, n, schedule)) {
          FullDelivery(files, n, schedule);
        }
      }
    } else if files == [] {
      forall schedule
        ensures Delivers(files, n, schedule)
      {
        RunKeeps(files, n, schedule);
      }
    } else if n == 1 {
      var schedule := LoneConsumerCanLose(files, 1);
      LoneDelivery(files, schedule);
      assert !Delivers(files, n, schedule);
    } else {
      assert !Delivers(files, n, []);
    }
  }

  // ---------- no deadlock ----------

  /** How far a thread is from its end, when there is a buffer queued, or none will be. */
  function Rank(c: Consumer, queued: bool, ended: bool): nat {
    match c
    case Idle => 6
    case Scanning => 5
    case Testing => if queued || ended then 3 else 2
    case AtFlag => if queued then 4 else 2
    case AtPop => 1
    case Exited => 0
  }

  function Ranks(cs: seq<Consumer>, queued: bool, ended: bool): nat {
    if cs == [] then 0 else Rank(cs[0], queued, ended) + Ranks(cs[1..], queued, ended)
  }

  lemma {:induction false} RanksMove(cs: seq<Consumer>, i: nat, c: Consumer, queued: bool, ended: bool)
    requires i < |cs|
    ensures Ranks(cs[i := c], queued, ended) ==
            Ranks(cs, queued, ended) - Rank(cs[i], queued, ended) + Rank(c, queued, ended)
  {
    if i == 0 {
      assert cs[i := c][1..] == cs[1..];
    } else {
      assert cs[i := c][1..] == cs[1..][i - 1 := c];
      RanksMove(cs[1..], i - 1, c, queued, ended);
    }
  }

  /** What the loading thread still has to do. */
  function Work(s: State): nat {
    match s.producer
    case Loading => 4 * |s.unread| + 2
    case Waiting(_) => 4 * |s.unread| + 5
    case Pushing(_) => 4 * |s.unread| + 4
    case Ending => 1
    case Finished => 0
  }

  function StateRank(s: State): nat {
    Ranks(s.consumers, s.deque != [], s.reachEnd)
  }

  /** Progress: some loading is done, or else a buffer popped, or bytes scanned, or a thread nearer
      to its end. */
  predicate Less(s': State, s: State) {
    || Work(s') < Work(s)
    || (Work(s') == Work(s) &&
        (|| |s'.deque| < |s.deque|
         || (|s'.deque| == |s.deque| &&
             (|| |s'.hand| < |s.hand| || (|s'.hand| == |s.hand| && StateRank(s') < StateRank(s))))))
  }

  predicate NoLess(s': State, s: State) {
    Work(s') == Work(s) && |s'.deque| == |s.deque| && |s'.hand| == |s.hand| && StateRank(s') == StateRank(s)
  }

  /** The thread goes round in its waiting loop. */
  predicate Polls(s: State, i: nat)
    requires i < |s.consumers|
  {
    (s.consumers[i].Testing? || s.consumers[i].AtFlag?) && s.deque == [] && !s.reachEnd
  }

  /** A turn that means progress whenever it comes. */
  ghost predicate Wanted(s: State, turn: Turn) {
    if turn.Load? then
      exists i :: 0 <= i < |s.consumers| && Polls(s, i)
    else
      && turn.i < |s.consumers|
      && if s.consumers[turn.i].Idle? then Free(s) else Holds(s.consumers[turn.i]) && !Polls(s, turn.i)
  }

  lemma SomeTurnIsWanted(s: State) returns (turn: Turn)
    requires !AllExited(s)
    ensures Wanted(s, turn) && (turn.Load? || turn.i < |s.consumers|)
  {
    if i: nat :| i < |s.consumers| && Holds(s.consumers[i]) {
      turn := if Polls(s, i) then Load else Consume(i);
    } else {
      var i: nat :| i < |s.consumers| && !s.consumers[i].Exited?;
      turn := Consume(i);
    }
  }

  lemma LoadIsProgress(s: State)
    ensures Less(ProducerStep(s), s) || ProducerStep(s) == s
    ensures s.deque == [] && !s.producer.Finished? ==> Less(ProducerStep(s), s)
  {
  }

  lemma HolderProgress(s: State, i: nat)
    requires i < |s.consumers| && Holds(s.consumers[i]) && !Polls(s, i)
    requires s.consumers[i].AtPop? ==> s.deque != []
    requires s.consumers[i].Testing? || s.consumers[i].AtFlag? || s.consumers[i].AtPop? ==> s.hand == []
    ensures Less(ConsumerStep(s, i), s)
  {
    RanksMove(s.consumers, i, ConsumerStep(s, i).consumers[i], s.deque != [], s.reachEnd);
  }

  lemma IdleProgress(s: State, i: nat)
    requires i < |s.consumers| && s.consumers[i].Idle? && Free(s)
    ensures Less(ConsumerStep(s, i), s)
  {
    RanksMove(s.consumers, i, Scanning, s.deque != [], s.reachEnd);
  }

  /** Going round in the waiting loop is no progress, but it does no harm either. */
  lemma PollingIsNoProgress(s: State, i: nat)
    requires i < |s.consumers| && Polls(s, i) && s.hand == []
    ensures NoLess(ConsumerStep(s, i), s) && Polls(ConsumerStep(s, i), i)
  {
    RanksMove(s.consumers, i, ConsumerStep(s, i).consumers[i], s.deque != [], s.reachEnd);
  }

  lemma WantedIsProgress(files: seq<seq<uint8>>, s: State, turn: Turn)
    requires Inv(files, s) && Wanted(s, turn)
    ensures Less(Step(s, turn), s)
  {
    if turn.Load? {
      LoadIsProgress(s);
    } else if s.consumers[turn.i].Idle? {
      IdleProgress(s, turn.i);
    } else {
      assert PlaceInv(s, turn.i);
      HolderProgress(s, turn.i);
    }
  }

  lemma Progress(files: seq<seq<uint8>>, s: State) returns (turn: Turn)
    requires Inv(files, s) && !AllExited(s)
    ensures Less(Step(s, turn), s)
  {
    turn := SomeTurnIsWanted(s);
    WantedIsProgress(files, s, turn);
  }

  lemma OneHolder(files: seq<seq<uint8>>, s: State, i: nat)
    requires Inv(files, s) && i < |s.consumers| && Holds(s.consumers[i])
    ensures forall j :: 0 <= j < |s.consumers| && Holds(s.consumers[j]) ==> j == i
  {
    forall j | 0 <= j < |s.consumers| && j != i
      ensures !Holds(s.consumers[j])
    {
      assert PairInv(s, i, j);
    }
  }

  /** Whatever turn comes first, it is progress or leaves the wanted one wanted. */
  lemma WantedStaysWanted(files: seq<seq<uint8>>, s: State, wanted: Turn, turn: Turn)
    requires Inv(files, s) && Wanted(s, wanted) && turn != wanted
    ensures Less(Step(s, turn), s) || (NoLess(Step(s, turn), s) && Wanted(Step(s, turn), wanted))
  {
    if turn.Load? {
      LoadIsProgress(s);
    } else if turn.i < |s.consumers| {
      var c := s.consumers[turn.i];
      assert PlaceInv(s, turn.i);
      if Holds(c) && Polls(s, turn.i) {
        PollingIsNoProgress(s, turn.i);
        OneHolder(files, s, turn.i);
      } else if Holds(c) {
        HolderProgress(s, turn.i);
      } else if c.Idle? && Free(s) {
        IdleProgress(s, turn.i);
      }
    }
  }

  /** From every state a run can reach, the threads can all still come to their end. */
  lemma {:induction false} CanFinishFrom(files: seq<seq<uint8>>, s: State) returns (schedule: seq<Turn>)
    requires Inv(files, s)
    ensures AllExited(RunFrom(s, schedule))
    decreases Work(s), |s.deque|, |s.hand|, StateRank(s)
  {
    if AllExited(s) {
      schedule := [];
    } else {
      var turn := Progress(files, s);
      StepKeeps(files, s, turn);
      var rest := CanFinishFrom(files, Step(s, turn));
      RunOne(s, turn);
      RunFromConcat(s, [turn], rest);
      schedule := [turn] + rest;
    }
  }

  lemma NoDeadlock(files: seq<seq<uint8>>, n: nat, start: seq<Turn>) returns (rest: seq<Turn>)
    ensures AllExited(Run(files, n, start + rest))
    ensures n > 0 ==> Run(files, n, start + rest).producer.Finished?
  {
    RunKeeps(files, n, start);
    rest := CanFinishFrom(files, Run(files, n, start));
    RunFromConcat(Init(files, n), start, rest);
    RunKeeps(files, n, start + rest);
    assert n > 0 ==> PlaceInv(Run(files, n, start + rest), 0);
  }

  // ---------- every fair schedule comes to an end ----------

  /** An endless schedule, of which a run takes the first `t` turns. */
  type Endless = nat -> Turn

  function Prefix(turns: Endless, t: nat): seq<Turn> {
    if t == 0 then [] else Prefix(turns, t - 1) + [turns(t - 1)]
  }

  function StateAt(files: seq<seq<uint8>>, n: nat, turns: Endless, t: nat): (s: State)
    ensures |s.consumers| == n
  {
    Run(files, n, Prefix(turns, t))
  }

  lemma NextState(files: seq<seq<uint8>>, n: nat, turns: Endless, t: nat)
    ensures StateAt(files, n, turns, t + 1) == Step(StateAt(files, n, turns, t), turns(t))
    ensures Inv(files, StateAt(files, n, turns, t))
  {
    RunFromConcat(Init(files, n), Prefix(turns, t), [turns(t)]);
    RunOne(StateAt(files, n, turns, t), turns(t));
    RunKeeps(files, n, Prefix(turns, t));
  }

  ghost predicate ComesAfter(turns: Endless, t: nat, turn: Turn) {
    exists u: nat :: t <= u && turns(u) == turn
  }

  /** Every thread gets its turn again and again. */
  ghost predicate Fair(turns: Endless, n: nat) {
    forall t: nat, turn: Turn :: turn.Load? || turn.i < n ==> ComesAfter(turns, t, turn)
  }

  /** Round robin is fair. */
  function RoundRobin(n: nat): Endless {
    (t: nat) => if t % (n + 1) == n then Load else Consume(t % (n + 1))
  }

  lemma RoundRobinIsFair(n: nat)
    ensures Fair(RoundRobin(n), n)
  {
    forall t: nat, turn: Turn | turn.Load? || turn.i < n
      ensures ComesAfter(RoundRobin(n), t, turn)
    {
      var k := if turn.Load? then n else turn.i;
      var u := (n + 1) * t + k;
      DivModUnique(u, n + 1, t, k);
      assert u == n * t + t + k && n * t >= 0;
      assert RoundRobin(n)(u) == turn;
    }
  }

  lemma OneTurn(files: seq<seq<uint8>>, n: nat, turns: Endless, t: nat, wanted: Turn)
    requires Wanted(StateAt(files, n, turns, t), wanted)
    ensures var s, s' := StateAt(files, n, turns, t), StateAt(files, n, turns, t + 1);
            Less(s', s) || (turns(t) != wanted && NoLess(s', s) && Wanted(s', wanted))
  {
    var s := StateAt(files, n, turns, t);
    NextState(files, n, turns, t);
    if turns(t) == wanted {
      WantedIsProgress(files, s, wanted);
    } else {
      WantedStaysWanted(files, s, wanted, turns(t));
    }
  }

  lemma LessThanEqual(s: State, s': State, s'': State)
    requires Less(s'', s') && NoLess(s', s)
    ensures Less(s'', s)
  {
  }

  lemma {:induction false} ProgressBy(files: seq<seq<uint8>>, n: nat, turns: Endless, t: nat, wanted: Turn, u: nat)
    returns (v: nat)
    requires t <= u && turns(u) == wanted && Wanted(StateAt(files, n, turns, t), wanted)
    ensures v > t && Less(StateAt(files, n, turns, v), StateAt(files, n, turns, t))
    decreases u - t
  {
    var s, s' := StateAt(files, n, turns, t), StateAt(files, n, turns, t + 1);
    OneTurn(files, n, turns, t, wanted);
    if Less(s', s) {
      v := t + 1;
    } else {
      v := ProgressBy(files, n, turns, t + 1, wanted, u);
      LessThanEqual(s, s', StateAt(files, n, turns, v));
    }
  }

  lemma {:induction false} EndsAfter(files: seq<seq<uint8>>, n: nat, turns: Endless, t: nat) returns (u: nat)
    requires Fair(turns, n)
    ensures AllExited(StateAt(files, n, turns, u))
    decreases Work(StateAt(files, n, turns, t)), |StateAt(files, n, turns, t).deque|,
              |StateAt(files, n, turns, t).hand|, StateRank(StateAt(files, n, turns, t))
  {
    var s := StateAt(files, n, turns, t);
    if AllExited(s) {
      u := t;
    } else {
      var wanted := SomeTurnIsWanted(s);
      assert ComesAfter(turns, t, wanted);
      var w: nat :| t <= w && turns(w) == wanted;
      var v := ProgressBy(files, n, turns, t, wanted, w);
      u := EndsAfter(files, n, turns, v);
    }
  }

  /** However the threads take turns, as long as none is kept waiting for ever, all of them come to
      their end; and if there are two consuming ones, all the files have then been scanned. */
  lemma FairRunsEnd(files: seq<seq<uint8>>, n: nat, turns: Endless) returns (t: nat)
    requires Fair(turns, n)
    ensures var s := StateAt(files, n, turns, t);
            AllExited(s) && (n >= 2 ==> s.popped == files && s.delivered == AllBlocks(files))
  {
    t := EndsAfter(files, n, turns, 0);
    if n >= 2 {
      FullDelivery(files, n, Prefix(turns, t));
    }
  }
}
