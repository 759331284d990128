/** libraries/script/src/parser.cpp: scripts as sequences of instructions, and the template of a
    script, which keeps its opcodes apart from the data it pushes. */
module Script {
  import opened Bytes

  const OP_0: uint8 := 0x00
  const OP_PUSHDATA1: uint8 := 0x4C
  const OP_PUSHDATA2: uint8 := 0x4D
  const OP_PUSHDATA4: uint8 := 0x4E
  const OP_1NEGATE: uint8 := 0x4F
  const OP_1: uint8 := 0x51
  const OP_16: uint8 := 0x60
  const OP_RETURN: uint8 := 0x6A
  const OP_DUP: uint8 := 0x76
  const OP_EQUAL: uint8 := 0x87
  const OP_EQUALVERIFY: uint8 := 0x88
  const OP_HASH160: uint8 := 0xA9
  const OP_CHECKSIG: uint8 := 0xAC
  const OP_CHECKMULTISIG: uint8 := 0xAE
  const OP_INVALIDOPCODE: uint8 := 0xFF

  datatype Instruction = Instruction(op: uint8, data: seq<uint8>)

  /** How many bytes give the length of the data after an opcode. */
  function LengthBytes(op: uint8): nat {
    if op == OP_PUSHDATA1 then 1 else if op == OP_PUSHDATA2 then 2 else if op == OP_PUSHDATA4 then 4 else 0
  }

  predicate WellFormed(i: Instruction) {
    if i.op < OP_PUSHDATA1 then |i.data| == i.op
    else if i.op <= OP_PUSHDATA4 then |i.data| < Pow256(LengthBytes(i.op))
    else i.data == []
  }

  predicate AllWellFormed(instrs: seq<Instruction>) {
    forall k :: 0 <= k < |instrs| ==> WellFormed(instrs[k])
  }

  function Enc(i: Instruction): seq<uint8> {
    [i.op] + LE(|i.data|, LengthBytes(i.op)) + i.data
  }

  function EncAll(instrs: seq<Instruction>): seq<uint8> {
    FlatMap(Enc, instrs)
  }

  /** The first instruction of a script, or a push that is cut short after `used` of its bytes. */
  datatype Fetched = Complete(instr: Instruction, rest: seq<uint8>) | Broken(used: nat) | Ended

  function DataLength(s: seq<uint8>): nat
    requires s != [] && |s| >= 1 + LengthBytes(s[0])
  {
    if s[0] < OP_PUSHDATA1 then s[0] else FromLE(s[1..1 + LengthBytes(s[0])])
  }

  function Next(s: seq<uint8>): (f: Fetched)
    ensures f.Complete? ==> |f.rest| < |s|
  {
    if s == [] then Ended
    else
      var k := LengthBytes(s[0]);
      if |s| < 1 + k then Broken(1)
      else if |s| < 1 + k + DataLength(s) then Broken(1 + k)
      else Complete(Instruction(s[0], s[1 + k..1 + k + DataLength(s)]), s[1 + k + DataLength(s)..])
  }

  // ---------- byte for byte ----------

  /** A push of `size` bytes behind `k` bytes of opcode and length, or one that is cut short. */
  function Cut(s: seq<uint8>, k: nat, size: nat): Fetched
    requires 0 < k <= |s|
  {
    if k + size <= |s| then Complete(Instruction(s[0], s[k..k + size]), s[k + size..]) else Broken(k)
  }

  lemma OneByteLength(s: seq<uint8>)
    requires |s| >= 2
    ensures FromLE(s[1..2]) == s[1]
  {
    FromLEStep(s, 1, 1);
    assert s[2..2] == [];
  }

  /** What each first byte of a script begins: a push of as many bytes as it says, a push whose length
      follows in one, two or four bytes, or an instruction without data. */
  lemma NextByteForByte(s: seq<uint8>)
    ensures s == [] ==> Next(s) == Ended
    ensures s != [] && s[0] < 0x4C ==> Next(s) == Cut(s, 1, s[0])
    ensures s != [] && s[0] == 0x4C ==> Next(s) == if |s| < 2 then Broken(1) else Cut(s, 2, s[1])
    ensures s != [] && s[0] == 0x4D ==> Next(s) == if |s| < 3 then Broken(1) else Cut(s, 3, Spelled2(s, 1))
    ensures s != [] && s[0] == 0x4E ==> Next(s) == if |s| < 5 then Broken(1) else Cut(s, 5, Spelled4(s, 1))
    ensures s != [] && s[0] > 0x4E ==> Next(s) == Complete(Instruction(s[0], []), s[1..])
  {
    if |s| >= 2 {
      OneByteLength(s);
    }
    if |s| >= 3 {
      FromLE2(s, 1);
    }
    if |s| >= 5 {
      FromLE4(s, 1);
    }
  }

  lemma NextIsCanonical(s: seq<uint8>)
    requires Next(s).Complete?
    ensures WellFormed(Next(s).instr) && s == Enc(Next(s).instr) + Next(s).rest
  {
    var k := LengthBytes(s[0]);
    LEOfFromLE(s[1..1 + k]);
    var n := 1 + k + DataLength(s);
    assert s == [s[0]] + s[1..1 + k] + s[1 + k..n] + s[n..];
  }

  lemma NextOfEnc(i: Instruction, rest: seq<uint8>)
    requires WellFormed(i)
    ensures Next(Enc(i) + rest) == Complete(i, rest)
  {
    var s := Enc(i) + rest;
    var k := LengthBytes(i.op);
    assert s[0] == i.op;
    assert s[1..1 + k] == LE(|i.data|, k);
    PowerValues();
    if k > 0 {
      LEFits(|i.data|, k);
    }
    assert s[1 + k..1 + k + |i.data|] == i.data;
    assert s[1 + k + |i.data|..] == rest;
  }

  lemma PrefixCompletes(s: seq<uint8>, i: Instruction)
    requires WellFormed(i) && Enc(i) <= s
    ensures Next(s) == Complete(i, s[|Enc(i)|..])
  {
    NextOfEnc(i, s[|Enc(i)|..]);
    assert s == Enc(i) + s[|Enc(i)|..];
  }

  /** No complete instruction starts `s`. */
  ghost predicate NoInstruction(s: seq<uint8>) {
    forall i :: WellFormed(i) ==> !(Enc(i) <= s)
  }

  /** A push is broken exactly when no complete instruction starts the script. */
  lemma BrokenIffNoInstruction(s: seq<uint8>)
    requires s != []
    ensures Next(s).Broken? <==> NoInstruction(s)
    ensures Next(s).Broken? ==> s[0] <= OP_PUSHDATA4 && 1 <= Next(s).used <= |s|
  {
    if Next(s).Complete? {
      NextIsCanonical(s);
      assert Enc(Next(s).instr) <= s;
    } else {
      forall i | WellFormed(i)
        ensures !(Enc(i) <= s)
      {
        if Enc(i) <= s {
          PrefixCompletes(s, i);
          assert false;
        }
      }
    }
  }

  /** The instructions of a script up to a broken push, which is left over. */
  datatype Parse = Parse(instrs: seq<Instruction>, left: seq<uint8>)

  function ParseScript(s: seq<uint8>): Parse
    decreases |s|
  {
    var f := Next(s);
    if f.Complete? then
      var p := ParseScript(f.rest);
      Parse([f.instr] + p.instrs, p.left)
    else Parse([], s)
  }

  lemma EncAllCons(i: Instruction, instrs: seq<Instruction>)
    ensures EncAll([i] + instrs) == Enc(i) + EncAll(instrs)
  {
    assert ([i] + instrs)[1..] == instrs;
  }

  /** Parsing loses nothing. */
  lemma {:induction false} ParseIsLossless(s: seq<uint8>)
    ensures var p := ParseScript(s);
            && AllWellFormed(p.instrs)
            && s == EncAll(p.instrs) + p.left
            && (p.left == [] || Next(p.left).Broken?)
    decreases |s|
  {
    var f := Next(s);
    if f.Complete? {
      NextIsCanonical(s);
      ParseIsLossless(f.rest);
      var p := ParseScript(f.rest);
      EncAllCons(f.instr, p.instrs);
      ConcatAssociates(Enc(f.instr), EncAll(p.instrs), p.left);
    } else {
      assert EncAll([]) + s == s;
    }
  }

  lemma EncAllSnoc(instrs: seq<Instruction>, i: Instruction)
    ensures EncAll(instrs + [i]) == EncAll(instrs) + Enc(i)
  {
    FlatMapConcat(Enc, instrs, [i]);
    FlatMapOne(Enc, i);
  }

  /** Complete instructions are parsed as what they are. */
  lemma {:induction false} ParseOfEncAll(instrs: seq<Instruction>, rest: seq<uint8>)
    requires AllWellFormed(instrs) && !Next(rest).Complete?
    ensures ParseScript(EncAll(instrs) + rest) == Parse(instrs, rest)
    decreases |instrs|
  {
    if instrs == [] {
      assert EncAll(instrs) + rest == rest;
    } else {
      assert instrs == [instrs[0]] + instrs[1..];
      EncAllCons(instrs[0], instrs[1..]);
      ConcatAssociates(Enc(instrs[0]), EncAll(instrs[1..]), rest);
      NextOfEnc(instrs[0], EncAll(instrs[1..]) + rest);
      ParseOfEncAll(instrs[1..], rest);
    }
  }

  /** A script is one whole sequence of instructions in at most one way. */
  lemma ParseIsUnique(instrs: seq<Instruction>)
    requires AllWellFormed(instrs)
    ensures ParseScript(EncAll(instrs)) == Parse(instrs, [])
  {
    ParseOfEncAll(instrs, []);
    ConcatAssociates(EncAll(instrs), [], []);
  }

  // ---------- templates ----------

  /** The opcodes that push a value. */
  predicate Pushes(op: uint8) {
    op <= OP_16
  }

  /** What an instruction pushes; 0x50, which is reserved, counts as a push of zero. */
  function Value(i: Instruction): seq<uint8> {
    if i.op <= OP_PUSHDATA4 then i.data
    else if i.op == OP_1NEGATE then [0x81]
    else [(i.op + 1 - OP_1) % 0x100]
  }

  function Pushed(i: Instruction): seq<seq<uint8>> {
    if Pushes(i.op) then [Value(i)] else []
  }

  function Ops(instrs: seq<Instruction>): (r: seq<uint8>)
    ensures |r| == |instrs| && forall k :: 0 <= k < |r| ==> r[k] == instrs[k].op
  {
    seq(|instrs|, k requires 0 <= k < |instrs| => instrs[k].op)
  }

  function Values(instrs: seq<Instruction>): seq<seq<uint8>> {
    FlatMap(Pushed, instrs)
  }

  /** Zero, or the position after the broken push's opcode and length. */
  function ErrorPosition(s: seq<uint8>): nat {
    var left := ParseScript(s).left;
    if Next(left).Broken? then |EncAll(ParseScript(s).instrs)| + Next(left).used else 0
  }

  /** The script that a template and its push data stand for. */
  function Rebuild(ops: seq<uint8>, values: seq<seq<uint8>>): seq<uint8> {
    if ops == [] then []
    else if !Pushes(ops[0]) || values == [] then [ops[0]] + Rebuild(ops[1..], values)
    else if ops[0] > OP_PUSHDATA4 then [ops[0]] + Rebuild(ops[1..], values[1..])
    else Enc(Instruction(ops[0], values[0])) + Rebuild(ops[1..], values[1..])
  }

  lemma OpcodeAlone(i: Instruction)
    requires WellFormed(i) && i.op > OP_PUSHDATA4
    ensures Enc(i) == [i.op]
  {
  }

  lemma {:induction false} RebuildInstructions(instrs: seq<Instruction>)
    requires AllWellFormed(instrs)
    ensures Rebuild(Ops(instrs), Values(instrs)) == EncAll(instrs)
  {
    if instrs != [] {
      var i, rest := instrs[0], instrs[1..];
      RebuildInstructions(rest);
      assert Ops(instrs)[1..] == Ops(rest);
      assert Values(instrs) == Pushed(i) + Values(rest);
      if Pushes(i.op) {
        assert Values(instrs)[0] == Value(i) && Values(instrs)[1..] == Values(rest);
      } else {
        ConcatAssociates(Values(rest), [], []);
      }
      if i.op > OP_PUSHDATA4 {
        OpcodeAlone(i);
      }
    }
  }

  predicate IsWhole(s: seq<uint8>, instrs: seq<Instruction>) {
    AllWellFormed(instrs) && s == EncAll(instrs)
  }

  /** The template is complete exactly for a concatenation of complete instructions, and then it
      and the push data give the script back byte for byte. */
  lemma TemplateIsLossless(s: seq<uint8>)
    ensures ErrorPosition(s) == 0 <==> exists instrs :: IsWhole(s, instrs)
    ensures ErrorPosition(s) == 0 ==> Rebuild(Ops(ParseScript(s).instrs), Values(ParseScript(s).instrs)) == s
  {
    ParseIsLossless(s);
    var p := ParseScript(s);
    if p.left == [] {
      ConcatAssociates(EncAll(p.instrs), [], []);
      RebuildInstructions(p.instrs);
      assert IsWhole(s, p.instrs);
    } else {
      BrokenIffNoInstruction(p.left);
      if instrs :| IsWhole(s, instrs) {
        ParseIsUnique(instrs);
        assert false;
      }
    }
  }

  /** Otherwise the position is inside the script, just inside the first push that is broken. */
  lemma ErrorIsInsideTheScript(s: seq<uint8>)
    requires ErrorPosition(s) != 0
    ensures var p := ParseScript(s);
            && AllWellFormed(p.instrs)
            && s == EncAll(p.instrs) + p.left
            && NoInstruction(p.left) && p.left != [] && p.left[0] <= OP_PUSHDATA4
            && |EncAll(p.instrs)| < ErrorPosition(s) <= |s|
  {
    ParseIsLossless(s);
    BrokenIffNoInstruction(ParseScript(s).left);
  }

  lemma TemplateCons(i: Instruction, instrs: seq<Instruction>)
    ensures Ops([i] + instrs) == [i.op] + Ops(instrs)
    ensures Values([i] + instrs) == Pushed(i) + Values(instrs)
  {
    FlatMapConcat(Pushed, [i], instrs);
    FlatMapOne(Pushed, i);
  }

  /** The value that an instruction adds: the data of a push, 0x81 for 0x4F, and the number for 0x50
      to 0x60, counted from 0x50 as zero. */
  lemma PushedByteForByte(i: Instruction)
    ensures i.op <= 0x4E ==> Pushed(i) == [i.data]
    ensures i.op == 0x4F ==> Pushed(i) == [[0x81]]
    ensures 0x50 <= i.op <= 0x60 ==> Pushed(i) == [[i.op - 0x50]]
    ensures i.op > 0x60 ==> Pushed(i) == []
  {
  }

  /** The template and the push data, instruction by instruction. */
  lemma TemplateByteForByte(s: seq<uint8>)
    requires Next(s).Complete?
    ensures var i, rest := Next(s).instr, ParseScript(Next(s).rest).instrs;
            && i.op == s[0]
            && Ops(ParseScript(s).instrs) == [i.op] + Ops(rest)
            && Values(ParseScript(s).instrs) == Pushed(i) + Values(rest)
  {
    TemplateCons(Next(s).instr, ParseScript(Next(s).rest).instrs);
  }

  /** The position of an error, instruction by instruction; one that is broken counts as far as its
      opcode and its length go. */
  lemma ErrorByteForByte(s: seq<uint8>)
    ensures Next(s).Complete? ==>
      var rest := Next(s).rest;
      ErrorPosition(s) == if ErrorPosition(rest) == 0 then 0 else |s| - |rest| + ErrorPosition(rest)
    ensures Next(s).Broken? ==> ErrorPosition(s) == Next(s).used && ParseScript(s).instrs == []
    ensures Next(s).Ended? ==> ErrorPosition(s) == 0 && ParseScript(s).instrs == []
  {
    if Next(s).Complete? {
      var i, rest := Next(s).instr, Next(s).rest;
      NextIsCanonical(s);
      EncAllCons(i, ParseScript(rest).instrs);
      ParseIsLossless(rest);
      if ParseScript(rest).left != [] {
        BrokenIffNoInstruction(ParseScript(rest).left);
      }
    }
  }

  // ---------- the parser ----------

  /** `sofar` has been read from `codes` and `s` is left. */
  ghost predicate Reads(codes: seq<uint8>, sofar: seq<Instruction>, s: seq<uint8>) {
    && codes == EncAll(sofar) + s
    && ParseScript(codes) == Parse(sofar + ParseScript(s).instrs, ParseScript(s).left)
  }

  predicate IsTemplate(withData: bool, temp: seq<uint8>, pushData: seq<seq<uint8>>, instrs: seq<Instruction>) {
    temp == Ops(instrs) && pushData == if withData then Values(instrs) else []
  }

  lemma ReadOne(codes: seq<uint8>, sofar: seq<Instruction>, s: seq<uint8>)
    requires Reads(codes, sofar, s) && Next(s).Complete?
    ensures Reads(codes, sofar + [Next(s).instr], Next(s).rest)
  {
    var i, rest := Next(s).instr, Next(s).rest;
    NextIsCanonical(s);
    EncAllSnoc(sofar, i);
    ConcatAssociates(EncAll(sofar), Enc(i), rest);
    ConcatAssociates(sofar, [i], ParseScript(rest).instrs);
  }

  lemma TemplateSnoc(instrs: seq<Instruction>, i: Instruction)
    ensures Values(instrs + [i]) == if Pushes(i.op) then Values(instrs) + [Value(i)] else Values(instrs)
    ensures Ops(instrs + [i]) == Ops(instrs) + [i.op]
  {
    FlatMapConcat(Pushed, instrs, [i]);
    FlatMapOne(Pushed, i);
  }

  lemma ReadAll(codes: seq<uint8>, sofar: seq<Instruction>, s: seq<uint8>)
    requires Reads(codes, sofar, s) && !Next(s).Complete?
    ensures ParseScript(codes).instrs == sofar
    ensures ErrorPosition(codes) == if Next(s).Broken? then |codes| - |s| + Next(s).used else 0
  {
    ConcatAssociates(sofar, [], []);
  }

  lemma StartReading(codes: seq<uint8>)
    ensures Reads(codes, [], codes)
  {
    ConcatAssociates(codes, [], []);
    ConcatAssociates(ParseScript(codes).instrs, [], []);
  }

  class Parser {
    var codes: seq<uint8>
    var pc: nat

    ghost predicate Valid()
      reads this
    {
      pc <= |codes|
    }

    ghost function Rest(): seq<uint8>
      requires Valid()
      reads this
    {
      codes[pc..]
    }

    constructor (codes: seq<uint8>)
      ensures Valid() && this.codes == codes && Rest() == codes
    {
      this.codes, pc := codes, 0;
    }

    predicate HasBytes(count: nat)
      reads this
    {
      pc + count <= |codes|
    }

    /** The length that follows a push opcode: none, one, two or four bytes. */
    method FetchLength(opcode: uint8) returns (ok: bool, size: nat)
      requires Valid() && pc > 0 && opcode == codes[pc - 1] && opcode <= OP_PUSHDATA4
      modifies this`pc
      ensures Valid()
      ensures ok <==> old(pc) + LengthBytes(opcode) <= |codes|
      ensures pc == if ok then old(pc) + LengthBytes(opcode) else old(pc)
      ensures ok ==> size == DataLength(codes[old(pc) - 1..])
      ensures opcode < 0x4C ==> ok && size == opcode && pc == old(pc)
      ensures ok && opcode == 0x4C ==> size == codes[old(pc)] && pc == old(pc) + 1
      ensures ok && opcode == 0x4D ==> size == Spelled2(codes, old(pc)) && pc == old(pc) + 2
      ensures ok && opcode == 0x4E ==> size == Spelled4(codes, old(pc)) && pc == old(pc) + 4
    {
      size := 0;
      ghost var rest := codes[pc - 1..];
      assert rest[0] == opcode;
      if opcode < OP_PUSHDATA1 {
        size := opcode;
      } else if opcode == OP_PUSHDATA1 {
        if !HasBytes(1) {
          return false, 0;
        }
        size := codes[pc];
        assert rest[1..2] == [codes[pc]];
        FromLEStep(rest, 1, 1);
        pc := pc + 1;
      } else if opcode == OP_PUSHDATA2 {
        if !HasBytes(2) {
          return false, 0;
        }
        size := FromLE(codes[pc..pc + 2]);
        assert rest[1..3] == codes[pc..pc + 2];
        FromLE2(codes, pc);
        pc := pc + 2;
      } else {
        if !HasBytes(4) {
          return false, 0;
        }
        size := FromLE(codes[pc..pc + 4]);
        assert rest[1..5] == codes[pc..pc + 4];
        FromLE4(codes, pc);
        pc := pc + 4;
      }
      ok := true;
    }

    static lemma RestSlices(codes: seq<uint8>, start: nat, k: nat, size: nat)
      requires start + k + size <= |codes|
      ensures codes[start..][k..k + size] == codes[start + k..start + k + size]
      ensures codes[start..][k + size..] == codes[start + k + size..]
    {
    }

    method Fetch() returns (ok: bool, opcode: uint8, data: seq<uint8>)
      requires Valid()
      modifies this`pc
      ensures Valid()
      ensures var next := old(Next(Rest()));
              && (ok <==> next.Complete?)
              && (ok ==> Instruction(opcode, data) == next.instr && Rest() == next.rest)
              && (!ok ==> data == [])
              && (next.Ended? ==> opcode == OP_INVALIDOPCODE && pc == old(pc))
              && (next.Broken? ==> opcode <= OP_PUSHDATA4 && pc == old(pc) + next.used)
    {
      opcode, data := OP_INVALIDOPCODE, [];
      if !HasBytes(1) {
        return false, opcode, data;
      }
      ghost var s := Rest();
      ghost var start := pc;
      opcode := codes[pc];
      pc := pc + 1;
      if opcode <= OP_PUSHDATA4 {
        assert codes[pc - 1..] == s;
        var more, size := FetchLength(opcode);
        if !more {
          return false, opcode, data;
        }
        if size != 0 {
          if !HasBytes(size) {
            return false, opcode, data;
          }
          data := codes[pc..pc + size];
          pc := pc + size;
        }
        RestSlices(codes, start, 1 + LengthBytes(opcode), size);
      }
      ok := true;
    }

    static method AppendPushed(opcode: uint8, data: seq<uint8>, pushData: seq<seq<uint8>>)
      returns (r: seq<seq<uint8>>)
      ensures r == if Pushes(opcode) then pushData + [Value(Instruction(opcode, data))] else pushData
      ensures opcode <= 0x4E ==> r == pushData + [data]
      ensures opcode == 0x4F ==> r == pushData + [[0x81]]
      ensures 0x50 <= opcode <= 0x60 ==> r == pushData + [[opcode - 0x50]]
      ensures opcode > 0x60 ==> r == pushData
    {
      r := pushData;
      if opcode <= OP_16 {
        if opcode <= OP_PUSHDATA4 {
          r := r + [data];
        } else if opcode == OP_1NEGATE {
          r := r + [[0x81]];
        } else {
          r := r + [[(opcode + 1 - OP_1) % 0x100]];
        }
      }
    }

    /** One turn of the loop: the template and the push data of what has been read, or of all. */
    method Turn(withData: bool, temp: seq<uint8>, pushData: seq<seq<uint8>>, ghost sofar: seq<Instruction>)
      returns (ok: bool, opcode: uint8, temp': seq<uint8>, pushData': seq<seq<uint8>>, ghost sofar': seq<Instruction>)
      requires Valid() && Reads(codes, sofar, Rest()) && IsTemplate(withData, temp, pushData, sofar)
      modifies this`pc
      ensures Valid()
      ensures ok ==> pc > old(pc) && Reads(codes, sofar', Rest())
      ensures !ok ==> sofar' == ParseScript(codes).instrs
      ensures !ok ==> ErrorPosition(codes) == if opcode == OP_INVALIDOPCODE then 0 else pc
      ensures IsTemplate(withData, temp', pushData', sofar')
    {
      temp', pushData', sofar' := temp, pushData, sofar;
      ghost var s := Rest();
      var data;
      ok, opcode, data := Fetch();
      if ok {
        temp' := temp + [opcode];
        if withData {
          pushData' := AppendPushed(opcode, data, pushData);
        }
        ReadOne(codes, sofar, s);
        TemplateSnoc(sofar, Instruction(opcode, data));
        sofar' := sofar + [Instruction(opcode, data)];
      } else {
        ReadAll(codes, sofar, s);
      }
    }

    static method GetTemplate(codes: seq<uint8>, withData: bool)
      returns (position: nat, temp: seq<uint8>, pushData: seq<seq<uint8>>)
      ensures position == ErrorPosition(codes)
      ensures temp == Ops(ParseScript(codes).instrs)
      ensures pushData == if withData then Values(ParseScript(codes).instrs) else []
    {
      temp, pushData := [], [];
      var parser := new Parser(codes);
      ghost var sofar: seq<Instruction> := [];
      StartReading(codes);
      var ok, opcode := true, 0;
      while ok
        invariant parser.Valid() && parser.codes == codes
        invariant ok ==> Reads(codes, sofar, parser.Rest())
        invariant !ok ==> sofar == ParseScript(codes).instrs
        invariant !ok ==> ErrorPosition(codes) == if opcode == OP_INVALIDOPCODE then 0 else parser.pc
        invariant IsTemplate(withData, temp, pushData, sofar)
        decreases ok, |codes| - parser.pc
      {
        ok, opcode, temp, pushData, sofar := parser.Turn(withData, temp, pushData, sofar);
      }
      if opcode != OP_INVALIDOPCODE {
        return parser.pc, temp, pushData;
      }
      position := 0;
    }
  }
}
