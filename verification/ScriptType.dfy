/** libraries/script/src/type.cpp: the type of a locking script and of the script that unlocks it. */
module ScriptType {
  import opened Bytes
  import opened Script

  datatype Type =
    | BadScript | NonStandard
    | PubKey | PubKeyHash | ScriptHash | MultiSig | OpReturn
    | PubKeyBadInput | PubKeyHashBadInput | MultiSigBadInput

  /** The type of a script, and the hashes, keys or signatures found in it. */
  datatype Classified = Classified(kind: Type, info: seq<seq<uint8>>)

  const PUB_KEY_HASH_TEMPLATE: seq<uint8> := [OP_DUP, OP_HASH160, 20, OP_EQUALVERIFY, OP_CHECKSIG]
  const SCRIPT_HASH_TEMPLATE: seq<uint8> := [OP_HASH160, 20, OP_EQUAL]

  predicate IsKeyPush(op: uint8) {
    op == 33 || op == 65
  }

  predicate AllPush(instrs: seq<Instruction>) {
    forall k :: 0 <= k < |instrs| ==> Pushes(instrs[k].op)
  }

  // ---------- which values are pushed by which instructions ----------

  lemma {:induction false} ValuesOfPushes(instrs: seq<Instruction>)
    ensures |Values(instrs)| <= |instrs|
    ensures |Values(instrs)| == |instrs| <==> AllPush(instrs)
    ensures AllPush(instrs) ==> forall k :: 0 <= k < |instrs| ==> Values(instrs)[k] == Value(instrs[k])
  {
    if instrs != [] {
      var i, rest := instrs[0], instrs[1..];
      ValuesOfPushes(rest);
      assert Values(instrs) == Pushed(i) + Values(rest);
      assert AllPush(instrs) ==> Pushes(instrs[0].op);
      if Pushes(i.op) && AllPush(rest) {
        forall k | 0 <= k < |instrs|
          ensures Pushes(instrs[k].op) && Values(instrs)[k] == Value(instrs[k])
        {
          assert k > 0 ==> instrs[k] == rest[k - 1];
        }
      }
      if AllPush(instrs) {
        assert forall k :: 0 <= k < |rest| ==> rest[k] == instrs[k + 1];
      }
    }
  }

  /** As long as only pushes come before it, a push finds its value at its own index. */
  lemma ValueAtItsIndex(instrs: seq<Instruction>, k: nat)
    requires k < |instrs| && AllPush(instrs[..k + 1])
    ensures k < |Values(instrs)| && Values(instrs)[k] == Value(instrs[k])
  {
    ValuesOfPushes(instrs[..k + 1]);
    assert instrs == instrs[..k + 1] + instrs[k + 1..];
    FlatMapConcat(Pushed, instrs[..k + 1], instrs[k + 1..]);
  }

  // ---------- locking scripts ----------

  /** `n` keys, `m` keys: the two numbers of a multi-signature script. */
  predicate MultiSigForm(instrs: seq<Instruction>) {
    && 4 <= |instrs| <= 19
    && OP_1 <= instrs[0].op
    && instrs[0].op <= instrs[|instrs| - 2].op
    && instrs[|instrs| - 2].op == OP_1 - 1 + (|instrs| - 3)
    && instrs[|instrs| - 1].op == OP_CHECKMULTISIG
    && (forall k :: 1 <= k < |instrs| - 2 ==> IsKeyPush(instrs[k].op))
  }

  function Data(instrs: seq<Instruction>): (r: seq<seq<uint8>>)
    ensures |r| == |instrs| && forall k :: 0 <= k < |r| ==> r[k] == instrs[k].data
  {
    seq(|instrs|, k requires 0 <= k < |instrs| => instrs[k].data)
  }

  function FormInfo(instrs: seq<Instruction>): seq<seq<uint8>>
    requires MultiSigForm(instrs)
  {
    [Value(instrs[0]), Value(instrs[|instrs| - 2])] + Data(instrs[1..|instrs| - 2])
  }

  function OutputOf(instrs: seq<Instruction>): Classified {
    if instrs == [] then Classified(NonStandard, [])
    else if |instrs| == 2 && IsKeyPush(instrs[0].op) && instrs[1].op == OP_CHECKSIG then
      Classified(PubKey, [instrs[0].data])
    else if Ops(instrs) == PUB_KEY_HASH_TEMPLATE then Classified(PubKeyHash, [instrs[2].data])
    else if Ops(instrs) == SCRIPT_HASH_TEMPLATE then Classified(ScriptHash, [instrs[1].data])
    else if instrs[0].op == OP_RETURN then
      Classified(if |instrs| > 1 && AllPush(instrs[1..]) then OpReturn else NonStandard, [])
    else if MultiSigForm(instrs) then
      Classified(MultiSig, FormInfo(instrs))
    else Classified(NonStandard, [])
  }

  function OutputType(s: seq<uint8>): Classified {
    if ErrorPosition(s) != 0 then Classified(BadScript, []) else OutputOf(ParseScript(s).instrs)
  }

  // ---------- the byte layouts ----------

  function Bare(op: uint8): Instruction {
    Instruction(op, [])
  }

  function DirectPush(data: seq<uint8>): Instruction
    requires |data| < OP_PUSHDATA1
  {
    Instruction(|data|, data)
  }

  lemma EncBare(op: uint8)
    requires op > OP_PUSHDATA4
    ensures WellFormed(Bare(op)) && Enc(Bare(op)) == [op]
  {
  }

  lemma EncDirectPush(data: seq<uint8>)
    requires |data| < OP_PUSHDATA1
    ensures WellFormed(DirectPush(data)) && Enc(DirectPush(data)) == [|data|] + data
  {
    ConcatAssociates([|data|], [], data);
  }

  /** Being these instructions, and parsing to them, are the same thing. */
  lemma WholeIffParsed(s: seq<uint8>, instrs: seq<Instruction>)
    requires AllWellFormed(instrs)
    ensures s == EncAll(instrs) <==> ParseScript(s) == Parse(instrs, [])
    ensures s == EncAll(instrs) ==> ErrorPosition(s) == 0
  {
    ParseIsUnique(instrs);
    ParseIsLossless(s);
    ConcatAssociates(EncAll(instrs), [], []);
  }

  lemma ParsedIsWhole(s: seq<uint8>)
    requires ErrorPosition(s) == 0
    ensures IsWhole(s, ParseScript(s).instrs) && ParseScript(s).left == []
  {
    ParseIsLossless(s);
    ConcatAssociates(EncAll(ParseScript(s).instrs), [], []);
    if ParseScript(s).left != [] {
      BrokenIffNoInstruction(ParseScript(s).left);
    }
  }

  lemma EncAll2(a: Instruction, b: Instruction)
    ensures EncAll([a, b]) == Enc(a) + Enc(b)
  {
    EncAllSnoc([a], b);
    FlatMapOne(Enc, a);
    assert [a] + [b] == [a, b];
  }

  lemma EncAll3(a: Instruction, b: Instruction, c: Instruction)
    ensures EncAll([a, b, c]) == Enc(a) + Enc(b) + Enc(c)
  {
    EncAll2(a, b);
    EncAllSnoc([a, b], c);
    assert [a, b] + [c] == [a, b, c];
  }

  predicate IsPubKeyScript(s: seq<uint8>, info: seq<seq<uint8>>) {
    |info| == 1 && (|info[0]| == 33 || |info[0]| == 65) && s == [|info[0]|] + info[0] + [0xAC]
  }

  predicate IsPubKeyHashScript(s: seq<uint8>, info: seq<seq<uint8>>) {
    |info| == 1 && |info[0]| == 20 && s == [0x76, 0xA9, 20] + info[0] + [0x88, 0xAC]
  }

  predicate IsScriptHashScript(s: seq<uint8>, info: seq<seq<uint8>>) {
    |info| == 1 && |info[0]| == 20 && s == [0xA9, 20] + info[0] + [0x87]
  }

  predicate IsKey(data: seq<uint8>) {
    |data| == 33 || |data| == 65
  }

  lemma PubKeyInstructions(key: seq<uint8>)
    requires IsKey(key)
    ensures var instrs := [DirectPush(key), Bare(OP_CHECKSIG)];
            AllWellFormed(instrs) && EncAll(instrs) == [|key|] + key + [0xAC]
  {
    EncDirectPush(key);
    EncBare(OP_CHECKSIG);
    EncAll2(DirectPush(key), Bare(OP_CHECKSIG));
  }

  lemma PubKeyIsTheseInstructions(instrs: seq<Instruction>, key: seq<uint8>)
    requires AllWellFormed(instrs)
    ensures OutputOf(instrs) == Classified(PubKey, [key]) <==>
            IsKey(key) && instrs == [DirectPush(key), Bare(OP_CHECKSIG)]
  {
    if |instrs| == 2 {
      assert WellFormed(instrs[0]) && WellFormed(instrs[1]);
    }
  }

  /** A script pays to a public key exactly when it is the push of a key and OP_CHECKSIG. */
  lemma PubKeyIffLayout(s: seq<uint8>, info: seq<seq<uint8>>)
    ensures OutputType(s) == Classified(PubKey, info) <==> IsPubKeyScript(s, info)
  {
    var p := ParseScript(s);
    if OutputType(s) == Classified(PubKey, info) {
      ParsedIsWhole(s);
      assert info == [info[0]];
      PubKeyIsTheseInstructions(p.instrs, info[0]);
      PubKeyInstructions(info[0]);
    } else if IsPubKeyScript(s, info) {
      PubKeyInstructions(info[0]);
      WholeIffParsed(s, [DirectPush(info[0]), Bare(OP_CHECKSIG)]);
      PubKeyIsTheseInstructions(p.instrs, info[0]);
    }
  }

  lemma PubKeyHashInstructions(hash: seq<uint8>)
    requires |hash| == 20
    ensures var instrs := [Bare(OP_DUP), Bare(OP_HASH160), DirectPush(hash), Bare(OP_EQUALVERIFY), Bare(OP_CHECKSIG)];
            AllWellFormed(instrs) && EncAll(instrs) == [0x76, 0xA9, 20] + hash + [0x88, 0xAC]
  {
    var a, b, c, d, e := Bare(OP_DUP), Bare(OP_HASH160), DirectPush(hash), Bare(OP_EQUALVERIFY), Bare(OP_CHECKSIG);
    EncDirectPush(hash);
    EncBare(OP_DUP);
    EncBare(OP_HASH160);
    EncBare(OP_EQUALVERIFY);
    EncBare(OP_CHECKSIG);
    EncAll3(a, b, c);
    EncAllSnoc([a, b, c], d);
    EncAllSnoc([a, b, c, d], e);
    assert [a, b, c] + [d] == [a, b, c, d] && [a, b, c, d] + [e] == [a, b, c, d, e];
  }

  lemma PubKeyHashIsTheseInstructions(instrs: seq<Instruction>, hash: seq<uint8>)
    requires AllWellFormed(instrs)
    ensures OutputOf(instrs) == Classified(PubKeyHash, [hash]) <==>
            && |hash| == 20
            && instrs == [Bare(OP_DUP), Bare(OP_HASH160), DirectPush(hash), Bare(OP_EQUALVERIFY), Bare(OP_CHECKSIG)]
  {
    if |instrs| == 5 {
      assert WellFormed(instrs[0]) && WellFormed(instrs[1]) && WellFormed(instrs[2]);
      assert WellFormed(instrs[3]) && WellFormed(instrs[4]);
    }
  }

  /** A script pays to the hash of a key exactly when it has this layout of 25 bytes. */
  lemma PubKeyHashIffLayout(s: seq<uint8>, info: seq<seq<uint8>>)
    ensures OutputType(s) == Classified(PubKeyHash, info) <==> IsPubKeyHashScript(s, info)
  {
    var p := ParseScript(s);
    if OutputType(s) == Classified(PubKeyHash, info) {
      ParsedIsWhole(s);
      assert info == [info[0]];
      PubKeyHashIsTheseInstructions(p.instrs, info[0]);
      PubKeyHashInstructions(info[0]);
    } else if IsPubKeyHashScript(s, info) {
      var hash := info[0];
      PubKeyHashInstructions(hash);
      WholeIffParsed(s, [Bare(OP_DUP), Bare(OP_HASH160), DirectPush(hash), Bare(OP_EQUALVERIFY), Bare(OP_CHECKSIG)]);
      PubKeyHashIsTheseInstructions(p.instrs, hash);
    }
  }

  lemma ScriptHashInstructions(hash: seq<uint8>)
    requires |hash| == 20
    ensures var instrs := [Bare(OP_HASH160), DirectPush(hash), Bare(OP_EQUAL)];
            AllWellFormed(instrs) && EncAll(instrs) == [0xA9, 20] + hash + [0x87]
  {
    EncDirectPush(hash);
    EncBare(OP_HASH160);
    EncBare(OP_EQUAL);
    EncAll3(Bare(OP_HASH160), DirectPush(hash), Bare(OP_EQUAL));
  }

  lemma ScriptHashIsTheseInstructions(instrs: seq<Instruction>, hash: seq<uint8>)
    requires AllWellFormed(instrs)
    ensures OutputOf(instrs) == Classified(ScriptHash, [hash]) <==>
            |hash| == 20 && instrs == [Bare(OP_HASH160), DirectPush(hash), Bare(OP_EQUAL)]
  {
    if |instrs| == 3 {
      assert WellFormed(instrs[0]) && WellFormed(instrs[1]) && WellFormed(instrs[2]);
    }
  }

  /** A script pays to the hash of a script exactly when it has this layout of 23 bytes. */
  lemma ScriptHashIffLayout(s: seq<uint8>, info: seq<seq<uint8>>)
    ensures OutputType(s) == Classified(ScriptHash, info) <==> IsScriptHashScript(s, info)
  {
    var p := ParseScript(s);
    if OutputType(s) == Classified(ScriptHash, info) {
      ParsedIsWhole(s);
      assert info == [info[0]];
      ScriptHashIsTheseInstructions(p.instrs, info[0]);
      ScriptHashInstructions(info[0]);
    } else if IsScriptHashScript(s, info) {
      ScriptHashInstructions(info[0]);
      WholeIffParsed(s, [Bare(OP_HASH160), DirectPush(info[0]), Bare(OP_EQUAL)]);
      ScriptHashIsTheseInstructions(p.instrs, info[0]);
    }
  }

  // ---------- multi-signature scripts ----------

  predicate AllKeys(keys: seq<seq<uint8>>) {
    forall k :: 0 <= k < |keys| ==> IsKey(keys[k])
  }

  function KeyPush(key: seq<uint8>): seq<uint8> {
    [|key| % 0x100] + key
  }

  function KeyInstruction(key: seq<uint8>): Instruction {
    Instruction(|key| % 0x100, key)
  }

  function KeyInstructions(keys: seq<seq<uint8>>): (r: seq<Instruction>)
    ensures |r| == |keys|
  {
    if keys == [] then [] else [KeyInstruction(keys[0])] + KeyInstructions(keys[1..])
  }

  lemma {:induction false} KeyInstructionAt(keys: seq<seq<uint8>>, k: nat)
    requires k < |keys|
    ensures KeyInstructions(keys)[k] == KeyInstruction(keys[k])
  {
    if k > 0 {
      KeyInstructionAt(keys[1..], k - 1);
    }
  }

  /** `n` of the keys must sign: OP_n, a push of each key, OP_m for their number `m`, OP_CHECKMULTISIG. */
  function MultiSigInstructions(n: nat, keys: seq<seq<uint8>>): seq<Instruction>
    requires n <= 16 && |keys| <= 16
  {
    [Bare(0x50 + n)] + KeyInstructions(keys) + [Bare(0x50 + |keys|), Bare(OP_CHECKMULTISIG)]
  }

  function MultiSigBytes(n: nat, keys: seq<seq<uint8>>): seq<uint8>
    requires n <= 16 && |keys| <= 16
  {
    [0x50 + n] + FlatMap(KeyPush, keys) + [0x50 + |keys|, 0xAE]
  }

  /** `info` is the two numbers, each as one byte, and then the keys. */
  predicate MultiSigInfo(info: seq<seq<uint8>>) {
    && |info| >= 2
    && |info[0]| == 1 && info[1] == [|info[2..]| % 0x100]
    && 1 <= info[0][0] <= |info[2..]| <= 16
    && AllKeys(info[2..])
  }

  predicate IsMultiSigScript(s: seq<uint8>, info: seq<seq<uint8>>) {
    MultiSigInfo(info) && s == MultiSigBytes(info[0][0], info[2..])
  }

  lemma {:induction false} EncKeys(keys: seq<seq<uint8>>)
    requires AllKeys(keys)
    ensures AllWellFormed(KeyInstructions(keys))
    ensures EncAll(KeyInstructions(keys)) == FlatMap(KeyPush, keys)
  {
    if keys != [] {
      assert IsKey(keys[0]);
      EncDirectPush(keys[0]);
      EncKeys(keys[1..]);
      EncAllCons(KeyInstruction(keys[0]), KeyInstructions(keys[1..]));
    }
  }

  lemma EncFramed(a: Instruction, middle: seq<Instruction>, b: Instruction, c: Instruction)
    ensures EncAll([a] + middle + [b, c]) == Enc(a) + EncAll(middle) + (Enc(b) + Enc(c))
  {
    EncAllCons(a, middle);
    EncAll2(b, c);
    FlatMapConcat(Enc, [a] + middle, [b, c]);
  }

  lemma EncMultiSig(n: nat, keys: seq<seq<uint8>>)
    requires 1 <= n <= |keys| <= 16 && AllKeys(keys)
    ensures AllWellFormed(MultiSigInstructions(n, keys))
    ensures EncAll(MultiSigInstructions(n, keys)) == MultiSigBytes(n, keys)
  {
    EncKeys(keys);
    EncBare(0x50 + n);
    EncBare(0x50 + |keys|);
    EncBare(OP_CHECKMULTISIG);
    EncFramed(Bare(0x50 + n), KeyInstructions(keys), Bare(0x50 + |keys|), Bare(OP_CHECKMULTISIG));
  }

  lemma MultiSigFormIsMultiSig(instrs: seq<Instruction>)
    requires MultiSigForm(instrs)
    ensures OutputOf(instrs) == Classified(MultiSig, FormInfo(instrs))
  {
    assert Ops(instrs)[0] == instrs[0].op;
    assert PUB_KEY_HASH_TEMPLATE[0] == OP_DUP && SCRIPT_HASH_TEMPLATE[0] == OP_HASH160;
  }

  lemma MultiSigHasForm(instrs: seq<Instruction>)
    requires OutputOf(instrs).kind.MultiSig?
    ensures MultiSigForm(instrs) && OutputOf(instrs) == Classified(MultiSig, FormInfo(instrs))
  {
  }

  predicate AllKeyPushes(instrs: seq<Instruction>) {
    forall k :: 0 <= k < |instrs| ==> IsKeyPush(instrs[k].op)
  }

  lemma DataCons(i: Instruction, instrs: seq<Instruction>)
    ensures Data([i] + instrs) == [i.data] + Data(instrs)
  {
  }

  lemma {:induction false} KeysArePushed(keys: seq<seq<uint8>>)
    requires AllKeys(keys)
    ensures Data(KeyInstructions(keys)) == keys && AllKeyPushes(KeyInstructions(keys))
  {
    if keys != [] {
      KeysArePushed(keys[1..]);
      assert IsKey(keys[0]);
      DataCons(KeyInstruction(keys[0]), KeyInstructions(keys[1..]));
    }
  }

  lemma InstructionsHaveForm(info: seq<seq<uint8>>)
    requires MultiSigInfo(info)
    ensures MultiSigForm(MultiSigInstructions(info[0][0], info[2..]))
    ensures FormInfo(MultiSigInstructions(info[0][0], info[2..])) == info
  {
    var n, keys := info[0][0], info[2..];
    var instrs := MultiSigInstructions(n, keys);
    KeysArePushed(keys);
    assert instrs[1..|instrs| - 2] == KeyInstructions(keys);
    forall k | 1 <= k < |instrs| - 2
      ensures IsKeyPush(instrs[k].op)
    {
      assert instrs[k] == KeyInstructions(keys)[k - 1];
    }
    assert info[0] == [n] && info == [info[0], info[1]] + keys;
  }

  lemma KeysOfPushes(pushes: seq<Instruction>)
    requires AllWellFormed(pushes) && forall k :: 0 <= k < |pushes| ==> IsKeyPush(pushes[k].op)
    ensures AllKeys(Data(pushes)) && pushes == KeyInstructions(Data(pushes))
  {
    forall k | 0 <= k < |pushes|
      ensures IsKey(Data(pushes)[k]) && pushes[k] == KeyInstructions(Data(pushes))[k]
    {
      assert WellFormed(pushes[k]);
      KeyInstructionAt(Data(pushes), k);
    }
  }

  lemma Framed(instrs: seq<Instruction>)
    requires |instrs| >= 3
    ensures instrs == [instrs[0]] + instrs[1..|instrs| - 2] + [instrs[|instrs| - 2], instrs[|instrs| - 1]]
  {
  }

  lemma FormHasInstructions(instrs: seq<Instruction>)
    requires AllWellFormed(instrs) && MultiSigForm(instrs)
    ensures var info := FormInfo(instrs);
            MultiSigInfo(info) && instrs == MultiSigInstructions(info[0][0], info[2..])
  {
    var middle := instrs[1..|instrs| - 2];
    var keys := Data(middle);
    assert FormInfo(instrs)[2..] == keys;
    assert forall k :: 0 <= k < |middle| ==> middle[k] == instrs[k + 1];
    KeysOfPushes(middle);
    assert WellFormed(instrs[0]) && WellFormed(instrs[|instrs| - 2]) && WellFormed(instrs[|instrs| - 1]);
    Framed(instrs);
  }

  lemma LayoutIsMultiSig(s: seq<uint8>, info: seq<seq<uint8>>)
    requires IsMultiSigScript(s, info)
    ensures OutputType(s) == Classified(MultiSig, info)
  {
    var instrs := MultiSigInstructions(info[0][0], info[2..]);
    EncMultiSig(info[0][0], info[2..]);
    WholeIffParsed(s, instrs);
    InstructionsHaveForm(info);
    MultiSigFormIsMultiSig(instrs);
  }

  /** A script asks for several signatures exactly when it has this layout. */
  lemma MultiSigIffLayout(s: seq<uint8>, info: seq<seq<uint8>>)
    ensures OutputType(s) == Classified(MultiSig, info) <==> IsMultiSigScript(s, info)
  {
    if OutputType(s) == Classified(MultiSig, info) {
      ParsedIsWhole(s);
      MultiSigHasForm(ParseScript(s).instrs);
      FormHasInstructions(ParseScript(s).instrs);
      EncMultiSig(info[0][0], info[2..]);
    } else if MultiSigInfo(info) && s == MultiSigBytes(info[0][0], info[2..]) {
      LayoutIsMultiSig(s, info);
    }
  }

  // ---------- data outputs, bad scripts, and the rest ----------

  predicate IsReturnOf(s: seq<uint8>, pushes: seq<Instruction>) {
    pushes != [] && AllPush(pushes) && AllWellFormed(pushes) && s == [0x6A] + EncAll(pushes)
  }

  lemma ReturnForm(instrs: seq<Instruction>)
    requires instrs != [] && instrs[0].op == OP_RETURN
    ensures OutputOf(instrs) == Classified(if |instrs| > 1 && AllPush(instrs[1..]) then OpReturn else NonStandard, [])
  {
    assert Ops(instrs)[0] == OP_RETURN;
    assert PUB_KEY_HASH_TEMPLATE[0] == OP_DUP && SCRIPT_HASH_TEMPLATE[0] == OP_HASH160;
  }

  lemma ReturnOfIsOpReturn(s: seq<uint8>, pushes: seq<Instruction>)
    requires IsReturnOf(s, pushes)
    ensures OutputType(s) == Classified(OpReturn, [])
  {
    var instrs := [Bare(OP_RETURN)] + pushes;
    EncBare(OP_RETURN);
    EncAllCons(Bare(OP_RETURN), pushes);
    WholeIffParsed(s, instrs);
    ReturnForm(instrs);
    assert instrs[1..] == pushes;
  }

  lemma OpReturnIsReturnOf(s: seq<uint8>)
    requires OutputType(s).kind.OpReturn?
    ensures IsReturnOf(s, ParseScript(s).instrs[1..])
  {
    ParsedIsWhole(s);
    var instrs := ParseScript(s).instrs;
    assert WellFormed(instrs[0]);
    EncBare(OP_RETURN);
    assert instrs == [Bare(OP_RETURN)] + instrs[1..];
    EncAllCons(Bare(OP_RETURN), instrs[1..]);
  }

  /** A script only carries data exactly when it is OP_RETURN and one or more pushes. */
  lemma OpReturnIffPushes(s: seq<uint8>)
    ensures OutputType(s) == Classified(OpReturn, []) <==> exists pushes :: IsReturnOf(s, pushes)
  {
    if OutputType(s).kind.OpReturn? {
      OpReturnIsReturnOf(s);
    } else if pushes :| IsReturnOf(s, pushes) {
      ReturnOfIsOpReturn(s, pushes);
      assert false;
    }
  }

  lemma BadIffError(s: seq<uint8>)
    ensures OutputType(s).kind.BadScript? <==> ErrorPosition(s) != 0
  {
  }

  /** A script is bad exactly when it is no sequence of complete instructions. */
  lemma BadScriptIffNotWhole(s: seq<uint8>)
    ensures OutputType(s).kind.BadScript? <==> !exists instrs :: IsWhole(s, instrs)
  {
    BadIffError(s);
    TemplateIsLossless(s);
  }

  // ---------- classifying a locking script ----------

  lemma {:induction false} NoValues(instrs: seq<Instruction>)
    requires forall j :: 0 <= j < |instrs| ==> !Pushes(instrs[j].op)
    ensures Values(instrs) == []
  {
    if instrs != [] {
      NoValues(instrs[1..]);
      assert Values(instrs) == Pushed(instrs[0]) + Values(instrs[1..]);
    }
  }

  lemma LastValue(instrs: seq<Instruction>, k: nat)
    requires k < |instrs| && Pushes(instrs[k].op)
    requires forall j :: 0 <= j < |instrs| && j != k ==> !Pushes(instrs[j].op)
    ensures Values(instrs) == [Value(instrs[k])]
  {
    assert instrs == instrs[..k] + [instrs[k]] + instrs[k + 1..];
    FlatMapConcat(Pushed, instrs[..k] + [instrs[k]], instrs[k + 1..]);
    FlatMapConcat(Pushed, instrs[..k], [instrs[k]]);
    FlatMapOne(Pushed, instrs[k]);
    NoValues(instrs[..k]);
    NoValues(instrs[k + 1..]);
  }

  /** The keys of a multi-signature template, or not all of them are keys. */
  method CollectKeys(temp: seq<uint8>, stack: seq<seq<uint8>>, m: nat, ghost instrs: seq<Instruction>)
    returns (isValid: bool, keys: seq<seq<uint8>>)
    requires temp == Ops(instrs) && stack == Values(instrs)
    requires m + 1 < |temp| && Pushes(temp[0])
    ensures isValid <==> forall k :: 1 <= k <= m ==> IsKeyPush(temp[k])
    ensures isValid ==> keys == Data(instrs[1..m + 1])
  {
    keys := [];
    var i := 1;
    while i <= m
      invariant 1 <= i <= m + 1
      invariant forall k :: 1 <= k < i ==> IsKeyPush(temp[k])
      invariant keys == Data(instrs[1..i])
    {
      if temp[i] != 33 && temp[i] != 65 {
        return false, keys;
      }
      assert forall k :: 0 < k <= i ==> Pushes(temp[k]) && instrs[k].op == temp[k];
      ValueAtItsIndex(instrs, i);
      keys := keys + [stack[i]];
      assert instrs[1..i + 1] == instrs[1..i] + [instrs[i]];
      i := i + 1;
    }
    isValid := true;
  }

  lemma OnlyPushes(instrs: seq<Instruction>)
    requires instrs != []
    ensures AllPush(instrs[1..]) <==> forall k :: 1 <= k < |instrs| ==> Ops(instrs)[k] <= OP_16
  {
    if AllPush(instrs[1..]) {
      forall k | 1 <= k < |instrs|
        ensures Ops(instrs)[k] <= OP_16
      {
        assert instrs[k] == instrs[1..][k - 1];
      }
    } else {
      var k: nat :| k < |instrs| - 1 && !Pushes(instrs[1..][k].op);
      assert Ops(instrs)[k + 1] == instrs[1..][k].op;
    }
  }

  method OfMultiSig(temp: seq<uint8>, stack: seq<seq<uint8>>, ghost instrs: seq<Instruction>) returns (r: Classified)
    requires temp == Ops(instrs) && stack == Values(instrs) && temp != []
    ensures r == if MultiSigForm(instrs) then Classified(MultiSig, FormInfo(instrs)) else Classified(NonStandard, [])
  {
    var op := temp[0];
    if OP_1 <= op <= OP_16 {
      var n := op - OP_1 + 1;
      if |temp| >= n + 3 && temp[|temp| - 1] == OP_CHECKMULTISIG {
        var m := temp[|temp| - 2] - OP_1 + 1;
        if m >= n && m <= 16 && |temp| == m + 3 {
          var isValid, keys := CollectKeys(temp, stack, m, instrs);
          if isValid {
            assert MultiSigForm(instrs);
            return Classified(MultiSig, [[n], [m]] + keys);
          }
        }
      }
    }
    r := Classified(NonStandard, []);
  }

  method OfTemplate(temp: seq<uint8>, stack: seq<seq<uint8>>, ghost instrs: seq<Instruction>) returns (r: Classified)
    requires temp == Ops(instrs) && stack == Values(instrs)
    ensures r == OutputOf(instrs)
  {
    if temp == [] {
      return Classified(NonStandard, []);
    }
    var op := temp[0];
    if (op == 33 || op == 65) && |temp| == 2 && temp[1] == OP_CHECKSIG {
      LastValue(instrs, 0);
      return Classified(PubKey, [stack[|stack| - 1]]);
    }
    if temp == PUB_KEY_HASH_TEMPLATE {
      LastValue(instrs, 2);
      return Classified(PubKeyHash, [stack[|stack| - 1]]);
    }
    if temp == SCRIPT_HASH_TEMPLATE {
      LastValue(instrs, 1);
      return Classified(ScriptHash, [stack[|stack| - 1]]);
    }
    if op == OP_RETURN {
      var onlyPushes := |temp| > 1 && forall k :: 1 <= k < |temp| ==> temp[k] <= OP_16;
      ReturnForm(instrs);
      OnlyPushes(instrs);
      return Classified(if onlyPushes then OpReturn else NonStandard, []);
    }
    r := OfMultiSig(temp, stack, instrs);
  }

  method GetOutputType(script: seq<uint8>) returns (r: Classified)
    ensures r == OutputType(script)
  {
    if script == [] {
      return Classified(NonStandard, []);
    }
    var position, temp, stack := Parser.GetTemplate(script, true);
    if position != 0 {
      return Classified(BadScript, []);
    }
    r := OfTemplate(temp, stack, ParseScript(script).instrs);
  }

  // ---------- unlocking scripts ----------

  /** The types that a script can be unlocked as. */
  predicate Unlockable(t: Type) {
    t.PubKey? || t.PubKeyHash? || t.MultiSig?
  }

  /** The type for a script that does not have the form its redeem script asks for. */
  function BadInput(t: Type): Type
    requires Unlockable(t)
  {
    if t.PubKey? then PubKeyBadInput else if t.PubKeyHash? then PubKeyHashBadInput else MultiSigBadInput
  }

  /** How many instructions `t` asks for, and what the first must be. */
  predicate FormOf(t: Type, temp: seq<uint8>, stack: seq<seq<uint8>>) {
    && |stack| == |temp|
    && match t
       case PubKey => |temp| == 1
       case PubKeyHash => |temp| == 2
       case MultiSig => |temp| > 1 && temp[0] == OP_0
       case _ => false
  }

  function InputForm(t: Type, temp: seq<uint8>, stack: seq<seq<uint8>>): Classified {
    if FormOf(t, temp, stack) then Classified(t, if t.MultiSig? then stack[1..] else stack)
    else Classified(NonStandard, [])
  }

  function DropLast<T>(s: seq<T>): seq<T>
    requires s != []
  {
    s[..|s| - 1]
  }

  /** A script that must bring its redeem script along as its last value. */
  function RedeemForm(temp: seq<uint8>, stack: seq<seq<uint8>>): Classified
    requires stack != [] && temp != []
  {
    var kind := OutputType(stack[|stack| - 1]).kind;
    if Unlockable(kind) then
      var r := InputForm(kind, DropLast(temp), DropLast(stack));
      if r.kind == kind then r else Classified(BadInput(kind), [])
    else Classified(NonStandard, [])
  }

  function InputOf(instrs: seq<Instruction>, output: Type): Classified {
    if output.ScriptHash? && Values(instrs) != [] && instrs != [] then RedeemForm(Ops(instrs), Values(instrs))
    else InputForm(output, Ops(instrs), Values(instrs))
  }

  function InputType(s: seq<uint8>, output: Type): Classified {
    if output.BadScript? then Classified(BadScript, [])
    else if s == [] then Classified(NonStandard, [])
    else if ErrorPosition(s) != 0 then Classified(BadScript, [])
    else InputOf(ParseScript(s).instrs, output)
  }

  method GetInputForm(output: Type, temp: seq<uint8>, stack: seq<seq<uint8>>) returns (r: Classified)
    ensures r == InputForm(output, temp, stack)
  {
    match output {
      case PubKey =>
        if |temp| == 1 && |stack| == 1 {
          return Classified(PubKey, stack);
        }
      case PubKeyHash =>
        if |temp| == 2 && |stack| == 2 {
          return Classified(PubKeyHash, stack);
        }
      case MultiSig =>
        if |temp| > 1 && temp[0] == OP_0 && |stack| == |temp| {
          return Classified(MultiSig, stack[1..]);
        }
      case _ =>
    }
    r := Classified(NonStandard, []);
  }

  lemma WholeScriptHasInstructions(s: seq<uint8>)
    requires s != [] && ErrorPosition(s) == 0
    ensures ParseScript(s).instrs != []
  {
    ParsedIsWhole(s);
  }

  method GetRedeemForm(temp: seq<uint8>, stack: seq<seq<uint8>>) returns (r: Classified)
    requires stack != [] && temp != []
    ensures r == RedeemForm(temp, stack)
  {
    var redeem := GetOutputType(stack[|stack| - 1]);
    var rest, values := temp[..|temp| - 1], stack[..|stack| - 1];
    match redeem.kind {
      case PubKey =>
        r := GetInputForm(PubKey, rest, values);
        if r.kind != PubKey {
          return Classified(PubKeyBadInput, []);
        }
      case PubKeyHash =>
        r := GetInputForm(PubKeyHash, rest, values);
        if r.kind != PubKeyHash {
          return Classified(PubKeyHashBadInput, []);
        }
      case MultiSig =>
        r := GetInputForm(MultiSig, rest, values);
        if r.kind != MultiSig {
          return Classified(MultiSigBadInput, []);
        }
      case _ =>
        r := GetInputForm(ScriptHash, rest, values);
    }
  }

  method GetInputType(script: seq<uint8>, output: Type) returns (r: Classified)
    ensures r == InputType(script, output)
  {
    if output == BadScript {
      return Classified(BadScript, []);
    }
    if script == [] {
      return Classified(NonStandard, []);
    }
    var position, temp, stack := Parser.GetTemplate(script, true);
    if position != 0 {
      return Classified(BadScript, []);
    }
    WholeScriptHasInstructions(script);
    if output == ScriptHash {
      if stack != [] && temp != [] {
        r := GetRedeemForm(temp, stack);
        return;
      }
      return Classified(NonStandard, []);
    }
    r := GetInputForm(output, temp, stack);
  }

  // ---------- opcode by opcode ----------

  /** The opcodes of a script. */
  function Opcodes(s: seq<uint8>): seq<uint8> {
    Ops(ParseScript(s).instrs)
  }

  /** The values that a script pushes. */
  function PushedValues(s: seq<uint8>): seq<seq<uint8>> {
    Values(ParseScript(s).instrs)
  }

  predicate OnlyUpTo0x60(ops: seq<uint8>) {
    forall k :: 0 <= k < |ops| ==> ops[k] <= 0x60
  }

  lemma AsManyValues(instrs: seq<Instruction>)
    ensures |Values(instrs)| == |Ops(instrs)| <==> OnlyUpTo0x60(Ops(instrs))
  {
    ValuesOfPushes(instrs);
    if OnlyUpTo0x60(Ops(instrs)) {
      forall k | 0 <= k < |instrs|
        ensures Pushes(instrs[k].op)
      {
        assert Ops(instrs)[k] <= 0x60;
      }
    }
  }

  /** A script by itself: one push for a public key, two for a hash of one, 0x00 and at least one more
      for a multi-signature script, no opcode above 0x60 in any of them; the info is the values
      pushed, without the first for the last type. Nothing unlocks any other type. */
  lemma DirectInputByOpcodes(s: seq<uint8>, t: Type)
    requires s != [] && ErrorPosition(s) == 0 && !t.BadScript? && !t.ScriptHash?
    ensures var ops, values := Opcodes(s), PushedValues(s);
            InputType(s, t) ==
              if t.PubKey? && |ops| == 1 && OnlyUpTo0x60(ops) then Classified(PubKey, values)
              else if t.PubKeyHash? && |ops| == 2 && OnlyUpTo0x60(ops) then Classified(PubKeyHash, values)
              else if t.MultiSig? && |ops| > 1 && ops[0] == 0x00 && OnlyUpTo0x60(ops) && |values| > 0
              then Classified(MultiSig, values[1..])
              else Classified(NonStandard, [])
  {
    AsManyValues(ParseScript(s).instrs);
  }

  /** What precedes the last opcode and the last value has the form of each type. */
  lemma FormBeforeLast(ops: seq<uint8>, values: seq<seq<uint8>>)
    requires ops != [] && values != [] && (|values| == |ops| <==> OnlyUpTo0x60(ops))
    ensures FormOf(PubKey, DropLast(ops), DropLast(values)) <==> |ops| == 2 && OnlyUpTo0x60(ops)
    ensures FormOf(PubKeyHash, DropLast(ops), DropLast(values)) <==> |ops| == 3 && OnlyUpTo0x60(ops)
    ensures FormOf(MultiSig, DropLast(ops), DropLast(values)) <==>
            |ops| > 2 && ops[0] == 0x00 && OnlyUpTo0x60(ops)
  {
  }

  lemma RedeemFormOfType(ops: seq<uint8>, values: seq<seq<uint8>>, redeem: Type)
    requires ops != [] && values != [] && OutputType(values[|values| - 1]).kind == redeem
    ensures var r, before := RedeemForm(ops, values), DropLast(values);
            && (redeem.PubKey? ==>
                  r == if FormOf(PubKey, DropLast(ops), before) then Classified(PubKey, before)
                       else Classified(PubKeyBadInput, []))
            && (redeem.PubKeyHash? ==>
                  r == if FormOf(PubKeyHash, DropLast(ops), before) then Classified(PubKeyHash, before)
                       else Classified(PubKeyHashBadInput, []))
            && (redeem.MultiSig? ==>
                  r == if FormOf(MultiSig, DropLast(ops), before) then Classified(MultiSig, before[1..])
                       else Classified(MultiSigBadInput, []))
            && (!redeem.PubKey? && !redeem.PubKeyHash? && !redeem.MultiSig? ==> r == Classified(NonStandard, []))
  {
  }

  lemma ScriptHashIsRedeemForm(s: seq<uint8>)
    requires ErrorPosition(s) == 0 && PushedValues(s) != []
    ensures Opcodes(s) != [] && InputType(s, ScriptHash) == RedeemForm(Opcodes(s), PushedValues(s))
  {
    ValuesOfPushes(ParseScript(s).instrs);
  }

  /** What a redeem script of each type asks of the opcodes, with it the last of the values. */
  lemma RedeemByOpcodes(s: seq<uint8>, redeem: Type)
    requires ErrorPosition(s) == 0 && PushedValues(s) != []
    requires redeem == OutputType(PushedValues(s)[|PushedValues(s)| - 1]).kind
    ensures var ops, values, r := Opcodes(s), PushedValues(s), InputType(s, ScriptHash);
            var before := values[..|values| - 1];
            && (redeem.PubKey? ==>
                  r == if |ops| == 2 && OnlyUpTo0x60(ops) then Classified(PubKey, before)
                       else Classified(PubKeyBadInput, []))
            && (redeem.PubKeyHash? ==>
                  r == if |ops| == 3 && OnlyUpTo0x60(ops) then Classified(PubKeyHash, before)
                       else Classified(PubKeyHashBadInput, []))
            && (redeem.MultiSig? ==>
                  r == if |ops| > 2 && ops[0] == 0x00 && OnlyUpTo0x60(ops) && |before| > 0
                       then Classified(MultiSig, before[1..])
                       else Classified(MultiSigBadInput, []))
            && (!redeem.PubKey? && !redeem.PubKeyHash? && !redeem.MultiSig? ==> r == Classified(NonStandard, []))
  {
    AsManyValues(ParseScript(s).instrs);
    ScriptHashIsRedeemForm(s);
    FormBeforeLast(Opcodes(s), PushedValues(s));
    RedeemFormOfType(Opcodes(s), PushedValues(s), redeem);
  }

  /** A script hash without any value pushed is unlocked by nothing. */
  lemma NoRedeemScript(s: seq<uint8>)
    requires ErrorPosition(s) == 0 && PushedValues(s) == []
    ensures InputType(s, ScriptHash) == Classified(NonStandard, [])
  {
  }

  /** An input is bad for a type only if a script hash was asked for and the last value is a redeem
      script of that very type. */
  lemma BadInputNamesTheRedeemScript(s: seq<uint8>, t: Type)
    requires var kind := InputType(s, t).kind;
             kind.PubKeyBadInput? || kind.PubKeyHashBadInput? || kind.MultiSigBadInput?
    ensures t.ScriptHash? && ErrorPosition(s) == 0 && PushedValues(s) != []
    ensures var kind, values := InputType(s, t).kind, PushedValues(s);
            var redeem := OutputType(values[|values| - 1]).kind;
            && (kind.PubKeyBadInput? ==> redeem.PubKey?)
            && (kind.PubKeyHashBadInput? ==> redeem.PubKeyHash?)
            && (kind.MultiSigBadInput? ==> redeem.MultiSig?)
  {
  }

  // ---------- what the types of unlocking scripts mean ----------

  /** Only pushes, as many as the type asks for. */
  predicate Unlocks(t: Type, instrs: seq<Instruction>) {
    && AllPush(instrs)
    && match t
       case PubKey => |instrs| == 1
       case PubKeyHash => |instrs| == 2
       case MultiSig => |instrs| > 1 && instrs[0].op == OP_0
       case _ => false
  }

  lemma FormIffUnlocks(t: Type, instrs: seq<Instruction>)
    ensures FormOf(t, Ops(instrs), Values(instrs)) <==> Unlocks(t, instrs)
  {
    ValuesOfPushes(instrs);
  }

  lemma {:induction false} EncAllNotEmpty(instrs: seq<Instruction>)
    ensures EncAll(instrs) == [] <==> instrs == []
  {
    if instrs != [] {
      assert EncAll(instrs) == Enc(instrs[0]) + EncAll(instrs[1..]);
    }
  }

  /** What a whole script is classified as depends on its instructions alone. */
  lemma InputOfWhole(instrs: seq<Instruction>, output: Type)
    requires AllWellFormed(instrs) && instrs != [] && !output.BadScript?
    ensures InputType(EncAll(instrs), output) == InputOf(instrs, output)
  {
    WholeIffParsed(EncAll(instrs), instrs);
    EncAllNotEmpty(instrs);
  }

  /** What unlocks a public key, a hash of one, or a multi-signature script: one push, two pushes,
      or OP_0 and one push or more, and the pushed values are the signatures and keys. */
  lemma DirectInputIffUnlocks(instrs: seq<Instruction>, t: Type)
    requires AllWellFormed(instrs) && Unlockable(t)
    ensures InputType(EncAll(instrs), t).kind == t <==> Unlocks(t, instrs)
    ensures InputType(EncAll(instrs), t).kind != t ==> InputType(EncAll(instrs), t) == Classified(NonStandard, [])
    ensures Unlocks(t, instrs) ==>
      var info, from := InputType(EncAll(instrs), t).info, if t.MultiSig? then 1 else 0;
      |info| == |instrs| - from && forall k :: 0 <= k < |info| ==> info[k] == Value(instrs[from + k])
  {
    EncAllNotEmpty(instrs);
    if instrs != [] {
      InputOfWhole(instrs, t);
      FormIffUnlocks(t, instrs);
      ValuesOfPushes(instrs);
    }
  }

  lemma LastIsPushed(head: seq<Instruction>, last: Instruction)
    requires Pushes(last.op)
    ensures Values(head + [last]) == Values(head) + [Value(last)]
    ensures DropLast(Values(head + [last])) == Values(head)
    ensures DropLast(Ops(head + [last])) == Ops(head)
  {
    TemplateSnoc(head, last);
  }

  /** A script hash is unlocked as type `t` exactly by a script that unlocks `t` directly followed by
      a push of a redeem script of type `t`; what is found in it is then the same, too. */
  lemma ScriptHashInput(head: seq<Instruction>, last: Instruction, t: Type)
    requires AllWellFormed(head) && WellFormed(last) && Pushes(last.op) && Unlockable(t)
    requires OutputType(Value(last)).kind == t
    ensures var direct := InputType(EncAll(head), t);
            InputType(EncAll(head + [last]), ScriptHash) ==
              if direct.kind == t then direct else Classified(BadInput(t), [])
  {
    InputOfWhole(head + [last], ScriptHash);
    LastIsPushed(head, last);
    EncAllNotEmpty(head);
    if head != [] {
      InputOfWhole(head, t);
    }
  }

  /** The last value is classified even where it is not the last instruction, but then the script is
      never accepted: it falls short of the form. */
  lemma TrailingInstructionIsBadInput(instrs: seq<Instruction>)
    requires AllWellFormed(instrs) && !AllPush(instrs)
    ensures var r := InputType(EncAll(instrs), ScriptHash);
            if Values(instrs) != [] && Unlockable(OutputType(Values(instrs)[|Values(instrs)| - 1]).kind)
            then r == Classified(BadInput(OutputType(Values(instrs)[|Values(instrs)| - 1]).kind), [])
            else r == Classified(NonStandard, [])
  {
    InputOfWhole(instrs, ScriptHash);
    ValuesOfPushes(instrs);
  }

  lemma LastPush(instrs: seq<Instruction>)
    requires instrs != [] && AllPush(instrs)
    ensures var head, last := DropLast(instrs), instrs[|instrs| - 1];
            && instrs == head + [last] && Pushes(last.op)
            && Values(instrs) == Values(head) + [Value(last)]
  {
    assert instrs == DropLast(instrs) + [instrs[|instrs| - 1]];
    LastIsPushed(DropLast(instrs), instrs[|instrs| - 1]);
  }

  /** Every case of a script hash: the type asked for is that of the last value, as a locking script;
      if it is one that can be unlocked, the script unlocks it exactly if all of it is pushes and what
      comes before the last one unlocks the type directly. */
  lemma ScriptHashOutcome(instrs: seq<Instruction>)
    requires AllWellFormed(instrs)
    ensures var r, values := InputType(EncAll(instrs), ScriptHash), Values(instrs);
            if values == [] || !Unlockable(OutputType(values[|values| - 1]).kind) then r == Classified(NonStandard, [])
            else
              var t := OutputType(values[|values| - 1]).kind;
              if AllPush(instrs) && InputType(EncAll(DropLast(instrs)), t).kind == t
              then r == InputType(EncAll(DropLast(instrs)), t)
              else r == Classified(BadInput(t), [])
  {
    EncAllNotEmpty(instrs);
    if instrs == [] {
    } else if !AllPush(instrs) {
      TrailingInstructionIsBadInput(instrs);
    } else {
      LastPush(instrs);
      var t := OutputType(Value(instrs[|instrs| - 1])).kind;
      if Unlockable(t) {
        ScriptHashInput(DropLast(instrs), instrs[|instrs| - 1], t);
      } else {
        InputOfWhole(instrs, ScriptHash);
      }
    }
  }

  lemma InputOfPushesOnly(instrs: seq<Instruction>, output: Type)
    requires Unlockable(InputOf(instrs, output).kind)
    ensures var kind := InputOf(instrs, output).kind;
            && AllPush(instrs) && instrs != []
            && (output != kind ==> output.ScriptHash? && OutputType(Value(instrs[|instrs| - 1])).kind == kind)
  {
    var ops, values := Ops(instrs), Values(instrs);
    ValuesOfPushes(instrs);
    if output.ScriptHash? && values != [] && instrs != [] {
      AsManyValues(instrs);
      FormBeforeLast(ops, values);
      RedeemFormOfType(ops, values, OutputType(values[|values| - 1]).kind);
    }
  }

  /** Whatever is unlocked is unlocked by pushes alone; either the type is the one asked for, or a
      script hash was asked for and the last value is a redeem script of the type. */
  lemma UnlockedByPushesOnly(s: seq<uint8>, output: Type)
    requires Unlockable(InputType(s, output).kind)
    ensures var instrs, kind := ParseScript(s).instrs, InputType(s, output).kind;
            && IsWhole(s, instrs) && AllPush(instrs) && instrs != []
            && (output != kind ==> output.ScriptHash? && OutputType(Value(instrs[|instrs| - 1])).kind == kind)
  {
    ParsedIsWhole(s);
    InputOfPushesOnly(ParseScript(s).instrs, output);
  }

  lemma EmptyIsWhole(s: seq<uint8>)
    ensures s == [] ==> IsWhole(s, [])
  {
  }

  /** The types an unlocking script can get. */
  lemma InputKinds(s: seq<uint8>, output: Type)
    ensures var kind := InputType(s, output).kind;
            || kind.NonStandard?
            || (kind.BadScript? && (output.BadScript? || !exists instrs :: IsWhole(s, instrs)))
            || (kind == output && Unlockable(output))
            || (output.ScriptHash? && (|| Unlockable(kind) || kind.PubKeyBadInput?
                                       || kind.PubKeyHashBadInput? || kind.MultiSigBadInput?))
    ensures output.BadScript? || !(exists instrs :: IsWhole(s, instrs)) ==> InputType(s, output).kind.BadScript?
  {
    TemplateIsLossless(s);
    EmptyIsWhole(s);
  }

  // ---------- all locking scripts ----------

  /** The types a locking script can get, and the info with those that find nothing in it. */
  lemma OutputKinds(s: seq<uint8>)
    ensures var r := OutputType(s);
            || r == Classified(BadScript, []) || r == Classified(NonStandard, []) || r == Classified(OpReturn, [])
            || r.kind.PubKey? || r.kind.PubKeyHash? || r.kind.ScriptHash? || r.kind.MultiSig?
  {
  }

  /** Every script that has none of the five layouts is bad or non-standard, with nothing found. */
  lemma NonStandardIffNoLayout(s: seq<uint8>)
    ensures OutputType(s) == Classified(NonStandard, []) <==>
      && (exists instrs :: IsWhole(s, instrs))
      && !(exists info :: IsPubKeyScript(s, info)) && !(exists info :: IsPubKeyHashScript(s, info))
      && !(exists info :: IsScriptHashScript(s, info)) && !(exists info :: IsMultiSigScript(s, info))
      && !(exists pushes :: IsReturnOf(s, pushes))
  {
    var info := OutputType(s).info;
    OutputKinds(s);
    BadScriptIffNotWhole(s);
    OpReturnIffPushes(s);
    if info' :| IsPubKeyScript(s, info') { PubKeyIffLayout(s, info'); }
    if info' :| IsPubKeyHashScript(s, info') { PubKeyHashIffLayout(s, info'); }
    if info' :| IsScriptHashScript(s, info') { ScriptHashIffLayout(s, info'); }
    if info' :| IsMultiSigScript(s, info') { MultiSigIffLayout(s, info'); }
    PubKeyIffLayout(s, info);
    PubKeyHashIffLayout(s, info);
    ScriptHashIffLayout(s, info);
    MultiSigIffLayout(s, info);
  }
}
