/** Replacing tagged WRITE32 values of a binary transaction by dispatch constants, in place. */
module TxnPatch {
  type Byte = x: int | 0 <= x < 256

  /** The upper half of a tagged value; the lower half is the index of the constant. */
  const SENTINEL: int := 0xA1EC

  /** A little-endian 32-bit word. */
  function Word(s: seq<Byte>, p: nat): (w: nat)
    requires p + 4 <= |s|
    ensures w < 0x1_0000_0000
  {
    s[p] as int + 0x100 * s[p + 1] as int + 0x1_0000 * s[p + 2] as int + 0x100_0000 * s[p + 3] as int
  }

  function Bytes4(w: nat): (r: seq<Byte>)
    requires w < 0x1_0000_0000
    ensures |r| == 4
  {
    [w % 0x100, w / 0x100 % 0x100, w / 0x100 / 0x100 % 0x100, w / 0x100 / 0x100 / 0x100 % 0x100]
  }

  lemma WordBytes(w: nat)
    requires w < 0x1_0000_0000
    ensures Word(Bytes4(w), 0) == w
  {
  }

  // ---- the patcher

  /** Size of the operation at byte `p`; 0 if it is malformed or truncated. */
  function OpSize(s: seq<Byte>, p: nat): (n: nat)
  {
    if p >= |s| then 0
    else if s[p] == 0 then (if p + 24 > |s| then 0 else Word(s, p + 20))
    else if s[p] == 1 then (if p + 16 > |s| then 0 else Word(s, p + 12))
    else if s[p] == 3 || s[p] == 4 then (if p + 28 > |s| then 0 else Word(s, p + 24))
    else if s[p] >= 128 then (if p + 8 > |s| then 0 else Word(s, p + 4))
    else 4
  }

  predicate Tagged(w: nat)
  {
    w / 0x1_0000 == SENTINEL
  }

  function Index(w: nat): (i: nat)
  {
    w % 0x1_0000
  }

  /** The tagged words are the sentinel with an index below 2^16 added, and that index is read back. */
  lemma TaggedIff(w: nat, i: nat)
    requires i < 0x1_0000
    ensures Tagged(w) && Index(w) == i <==> w == 0xA1EC_0000 + i
  {
    assert w == w / 0x1_0000 * 0x1_0000 + w % 0x1_0000;
  }

  predicate InBounds(w: nat, constants: seq<Byte>)
  {
    4 * Index(w) + 4 <= |constants|
  }

  function Constant(w: nat, constants: seq<Byte>): (r: seq<Byte>)
    requires InBounds(w, constants)
    ensures |r| == 4
  {
    constants[4 * Index(w)..4 * Index(w) + 4]
  }

  function Overwrite(s: seq<Byte>, p: nat, v: seq<Byte>): (r: seq<Byte>)
    requires p + |v| <= |s|
    ensures |r| == |s|
  {
    s[..p] + v + s[p + |v|..]
  }

  /** The outcome and the bytes after `n` operations from byte `p` on. */
  function PatchOps(s: seq<Byte>, p: nat, n: nat, constants: seq<Byte>): (r: (bool, seq<Byte>))
    decreases n
  {
    if n == 0 then (true, s)
    else
      var size := OpSize(s, p);
      if size == 0 || p + size > |s| then (false, s)
      else if s[p] == 0 && Tagged(Word(s, p + 16)) then
        if !InBounds(Word(s, p + 16), constants) then (false, s)
        else PatchOps(Overwrite(s, p + 16, Constant(Word(s, p + 16), constants)), p + size, n - 1, constants)
      else PatchOps(s, p + size, n - 1, constants)
  }

  /** Fewer than four words are left alone; otherwise word 2 counts the operations behind the 16-byte header. */
  function PatchTxn(s: seq<Byte>, constants: seq<Byte>): (r: (bool, seq<Byte>))
  {
    if |s| < 16 then (true, s) else PatchOps(s, 16, Word(s, 8), constants)
  }

  method PatchWrite32Constants(b: array<Byte>, constants: seq<Byte>) returns (ok: bool)
    modifies b
    ensures (ok, b[..]) == PatchTxn(old(b[..]), constants)
  {
    hide Word, Overwrite, Constant, OpSize;
    if b.Length < 16 { return true; }
    var numOps := Word(b[..], 8);
    var p := 16;
    for i := 0 to numOps
      invariant p >= 16 && PatchOps(b[..], p, numOps - i, constants) == PatchTxn(old(b[..]), constants)
    {
      var size := OpSize(b[..], p);
      WriteFits(b[..], p);
      if size == 0 || p + size > b.Length { return false; }
      if b[p] == 0 {
        var value := Word(b[..], p + 16);
        if Tagged(value) {
          if !InBounds(value, constants) { return false; }
          WriteBytes(b, p + 16, Constant(value, constants));
        }
      }
      p := p + size;
    }
    return true;
  }

  lemma WriteFits(s: seq<Byte>, p: nat)
    ensures OpSize(s, p) != 0 ==> p < |s| && (s[p] == 0 ==> p + 24 <= |s|)
  {
  }

  method WriteBytes(b: array<Byte>, p: nat, v: seq<Byte>)
    requires p + |v| <= b.Length
    modifies b
    ensures b[..] == Overwrite(old(b[..]), p, v)
  {
    for j := 0 to |v|
      invariant forall k :: 0 <= k < b.Length ==> b[k] == if p <= k < p + j then v[k - p] else old(b[k])
    {
      b[p + j] := v[j];
    }
  }

  // ---- transactions as lists of operations

  /** Opcode, the bytes up to the size field if there is one, and what follows the size field. */
  datatype Op = Op(opcode: Byte, head: seq<Byte>, tail: seq<Byte>)

  function HeadLength(opcode: Byte): (n: nat)
  {
    if opcode == 0 then 19 else if opcode == 1 then 11 else if opcode == 3 || opcode == 4 then 23 else 3
  }

  predicate Sized(opcode: Byte)
  {
    opcode == 0 || opcode == 1 || opcode == 3 || opcode == 4 || opcode >= 128
  }

  function SizeOf(op: Op): (n: nat)
  {
    1 + |op.head| + if Sized(op.opcode) then 4 + |op.tail| else 0
  }

  predicate OpOk(op: Op)
  {
    |op.head| == HeadLength(op.opcode) && SizeOf(op) < 0x1_0000_0000
  }

  function OpBytes(op: Op): (r: seq<Byte>)
    requires OpOk(op)
    ensures |r| == SizeOf(op)
  {
    [op.opcode] + op.head + if Sized(op.opcode) then Bytes4(SizeOf(op)) + op.tail else []
  }

  function Serialized(ops: seq<Op>): (r: seq<Byte>)
    requires forall k :: 0 <= k < |ops| ==> OpOk(ops[k])
  {
    if ops == [] then [] else OpBytes(ops[0]) + Serialized(ops[1..])
  }

  /** The value word of a WRITE32. */
  function ValueOf(op: Op): (w: nat)
    requires OpOk(op) && op.opcode == 0
  {
    Word(op.head, 15)
  }

  predicate NeedsPatch(op: Op)
    requires OpOk(op)
  {
    op.opcode == 0 && Tagged(ValueOf(op))
  }

  predicate Patchable(op: Op, constants: seq<Byte>)
    requires OpOk(op)
  {
    NeedsPatch(op) ==> InBounds(ValueOf(op), constants)
  }

  function PatchedOp(op: Op, constants: seq<Byte>): (r: Op)
    requires OpOk(op)
    ensures OpOk(r) && r.opcode == op.opcode && r.tail == op.tail && SizeOf(r) == SizeOf(op)
  {
    if NeedsPatch(op) && Patchable(op, constants)
    then op.(head := op.head[..15] + Constant(ValueOf(op), constants))
    else op
  }

  /** Operations patched one by one, up to the first that cannot be. */
  function PatchedList(ops: seq<Op>, constants: seq<Byte>): (r: seq<Op>)
    requires forall k :: 0 <= k < |ops| ==> OpOk(ops[k])
    ensures |r| == |ops| && forall k :: 0 <= k < |ops| ==> OpOk(r[k])
  {
    if ops == [] || !Patchable(ops[0], constants) then ops
    else [PatchedOp(ops[0], constants)] + PatchedList(ops[1..], constants)
  }

  ghost predicate AllPatchable(ops: seq<Op>, constants: seq<Byte>)
    requires forall k :: 0 <= k < |ops| ==> OpOk(ops[k])
  {
    forall k :: 0 <= k < |ops| ==> Patchable(ops[k], constants)
  }

  // ---- reading back what was serialised

  lemma WordAt(pre: seq<Byte>, a: seq<Byte>, post: seq<Byte>, i: nat)
    requires i + 4 <= |a|
    ensures Word(pre + a + post, |pre| + i) == Word(a, i)
  {
  }

  lemma SizeField(op: Op)
    requires OpOk(op) && Sized(op.opcode)
    ensures Word(OpBytes(op), 1 + |op.head|) == SizeOf(op)
  {
    WordBytes(SizeOf(op));
    var field := Bytes4(SizeOf(op));
    assert OpBytes(op) == ([op.opcode] + op.head) + field + op.tail;
    WordAt([op.opcode] + op.head, field, op.tail, 0);
  }

  /** The operation at its place is seen with its own size. */
  lemma OpSizeAt(pre: seq<Byte>, op: Op, post: seq<Byte>)
    requires OpOk(op)
    ensures var s := pre + OpBytes(op) + post; OpSize(s, |pre|) == SizeOf(op) && s[|pre|] == op.opcode
  {
    var s := pre + OpBytes(op) + post;
    assert s[|pre|] == op.opcode;
    if Sized(op.opcode) {
      SizeField(op);
      WordAt(pre, OpBytes(op), post, 1 + |op.head|);
    }
  }

  lemma ValueAt(pre: seq<Byte>, op: Op, post: seq<Byte>)
    requires OpOk(op) && op.opcode == 0
    ensures Word(pre + OpBytes(op) + post, |pre| + 16) == ValueOf(op)
  {
    WordAt(pre, OpBytes(op), post, 16);
    var rest := Bytes4(SizeOf(op)) + op.tail;
    assert OpBytes(op) == [op.opcode] + op.head + rest;
    WordAt([op.opcode], op.head, rest, 15);
  }

  lemma OverwriteAt(pre: seq<Byte>, op: Op, post: seq<Byte>, constants: seq<Byte>)
    requires OpOk(op) && NeedsPatch(op) && Patchable(op, constants)
    ensures Overwrite(pre + OpBytes(op) + post, |pre| + 16, Constant(ValueOf(op), constants)) ==
            pre + OpBytes(PatchedOp(op, constants)) + post
  {
    var v := Constant(ValueOf(op), constants);
    var rest := Bytes4(SizeOf(op)) + op.tail;
    var a := [op.opcode] + op.head[..15];
    assert OpBytes(op) == a + op.head[15..] + rest;
    assert OpBytes(PatchedOp(op, constants)) == a + v + rest;
  }

  function Around(pre: seq<Byte>, a: seq<Byte>, post: seq<Byte>): (r: seq<Byte>)
  {
    pre + a + post
  }

  lemma Regroup(pre: seq<Byte>, a: seq<Byte>, b: seq<Byte>, post: seq<Byte>)
    ensures Around(pre, a + b, post) == Around(pre, a, b + post) == Around(pre + a, b, post)
  {
  }

  /** One operation of a transaction: left alone, patched in place, or refused. */
  lemma PatchOne(pre: seq<Byte>, op: Op, post: seq<Byte>, n: nat, constants: seq<Byte>)
    requires OpOk(op) && n >= 1
    ensures PatchOps(Around(pre, OpBytes(op), post), |pre|, n, constants) ==
            if !Patchable(op, constants) then (false, Around(pre, OpBytes(op), post))
            else PatchOps(Around(pre, OpBytes(PatchedOp(op, constants)), post), |pre| + SizeOf(op), n - 1, constants)
  {
    hide OpBytes, OpSize;
    OpSizeAt(pre, op, post);
    if op.opcode == 0 {
      ValueAt(pre, op, post);
      if NeedsPatch(op) && Patchable(op, constants) {
        OverwriteAt(pre, op, post, constants);
      }
    }
    hide Overwrite, Constant, Word;
  }

  /**
   * Patching a serialised list of operations, wherever it stands, is serialising the patched list; it
   * succeeds exactly if every tagged index is within the constants.
   */
  lemma {:induction false} PatchSerialized(pre: seq<Byte>, ops: seq<Op>, post: seq<Byte>, constants: seq<Byte>)
    requires forall k :: 0 <= k < |ops| ==> OpOk(ops[k])
    ensures PatchOps(Around(pre, Serialized(ops), post), |pre|, |ops|, constants) ==
            (AllPatchable(ops, constants), Around(pre, Serialized(PatchedList(ops, constants)), post))
    decreases |ops|
  {
    if ops != [] {
      PatchableFirst(ops, constants);
      PatchFirst(pre, ops, post, constants);
      if Patchable(ops[0], constants) {
        hide PatchOps, Serialized, PatchedList, OpBytes, AllPatchable, Patchable, PatchedOp, Around;
        PatchSerialized(pre + OpBytes(PatchedOp(ops[0], constants)), ops[1..], post, constants);
        SerializedMoved(pre, ops, post, constants);
      }
    }
  }

  /** The first operation moves to the part that is done, unless it is refused. */
  lemma PatchFirst(pre: seq<Byte>, ops: seq<Op>, post: seq<Byte>, constants: seq<Byte>)
    requires ops != [] && (forall k :: 0 <= k < |ops| ==> OpOk(ops[k]))
    ensures var pre' := pre + OpBytes(PatchedOp(ops[0], constants));
            PatchOps(Around(pre, Serialized(ops), post), |pre|, |ops|, constants) ==
            if !Patchable(ops[0], constants) then (false, Around(pre, Serialized(ops), post))
            else PatchOps(Around(pre', Serialized(ops[1..]), post), |pre'|, |ops| - 1, constants)
  {
    hide PatchOps, Serialized, OpBytes, Patchable, PatchedOp, Around, Then;
    var op' := PatchedOp(ops[0], constants);
    FirstApart(pre, ops, post);
    PatchOne(pre, ops[0], Then(ops[1..], post), |ops|, constants);
    FirstDone(pre, op', ops[1..], post);
  }

  function Then(ops: seq<Op>, post: seq<Byte>): (r: seq<Byte>)
    requires forall k :: 0 <= k < |ops| ==> OpOk(ops[k])
  {
    Serialized(ops) + post
  }

  lemma FirstApart(pre: seq<Byte>, ops: seq<Op>, post: seq<Byte>)
    requires ops != [] && forall k :: 0 <= k < |ops| ==> OpOk(ops[k])
    ensures Around(pre, Serialized(ops), post) == Around(pre, OpBytes(ops[0]), Then(ops[1..], post))
  {
    Regroup(pre, OpBytes(ops[0]), Serialized(ops[1..]), post);
    hide Around, OpBytes;
  }

  lemma FirstDone(pre: seq<Byte>, op: Op, ops: seq<Op>, post: seq<Byte>)
    requires OpOk(op) && forall k :: 0 <= k < |ops| ==> OpOk(ops[k])
    ensures Around(pre, OpBytes(op), Then(ops, post)) == Around(pre + OpBytes(op), Serialized(ops), post)
    ensures |pre + OpBytes(op)| == |pre| + SizeOf(op)
  {
    Regroup(pre, OpBytes(op), Serialized(ops), post);
    hide Around, OpBytes, Serialized;
  }

  lemma SerializedMoved(pre: seq<Byte>, ops: seq<Op>, post: seq<Byte>, constants: seq<Byte>)
    requires ops != [] && (forall k :: 0 <= k < |ops| ==> OpOk(ops[k])) && Patchable(ops[0], constants)
    ensures Around(pre + OpBytes(PatchedOp(ops[0], constants)), Serialized(PatchedList(ops[1..], constants)), post) ==
            Around(pre, Serialized(PatchedList(ops, constants)), post)
  {
    SerializedFirst(ops, constants);
    hide Serialized, PatchedList, OpBytes, Patchable, PatchedOp, Around;
    Regroup(pre, OpBytes(PatchedOp(ops[0], constants)), Serialized(PatchedList(ops[1..], constants)), post);
  }

  lemma SerializedFirst(ops: seq<Op>, constants: seq<Byte>)
    requires ops != [] && forall k :: 0 <= k < |ops| ==> OpOk(ops[k])
    ensures Serialized(ops) == OpBytes(ops[0]) + Serialized(ops[1..])
    ensures Serialized(PatchedList(ops, constants)) ==
            if !Patchable(ops[0], constants) then Serialized(ops)
            else OpBytes(PatchedOp(ops[0], constants)) + Serialized(PatchedList(ops[1..], constants))
  {
    var rest' := PatchedList(ops[1..], constants);
    assert ([PatchedOp(ops[0], constants)] + rest')[1..] == rest';
    hide OpBytes, PatchedOp, Patchable;
  }

  lemma PatchableFirst(ops: seq<Op>, constants: seq<Byte>)
    requires ops != [] && forall k :: 0 <= k < |ops| ==> OpOk(ops[k])
    ensures AllPatchable(ops, constants) <==> Patchable(ops[0], constants) && AllPatchable(ops[1..], constants)
  {
    if Patchable(ops[0], constants) && AllPatchable(ops[1..], constants) {
      forall k | 0 <= k < |ops|
        ensures Patchable(ops[k], constants)
      {
        assert k > 0 ==> ops[k] == ops[1..][k - 1];
      }
    }
  }

  /** A whole transaction: header, operations and whatever follows them. */
  datatype Txn = Txn(header: seq<Byte>, ops: seq<Op>, rest: seq<Byte>)

  ghost predicate TxnOk(t: Txn)
  {
    && |t.header| == 16 && Word(t.header, 8) == |t.ops|
    && forall k :: 0 <= k < |t.ops| ==> OpOk(t.ops[k])
  }

  function TxnBytes(t: Txn): (r: seq<Byte>)
    requires forall k :: 0 <= k < |t.ops| ==> OpOk(t.ops[k])
  {
    t.header + Serialized(t.ops) + t.rest
  }

  /** On a well-formed transaction the patcher does what it should, and succeeds when it should. */
  lemma PatchTransaction(t: Txn, constants: seq<Byte>)
    requires TxnOk(t)
    ensures PatchTxn(TxnBytes(t), constants) ==
            (AllPatchable(t.ops, constants), TxnBytes(t.(ops := PatchedList(t.ops, constants))))
  {
    PatchSerialized(t.header, t.ops, t.rest, constants);
    hide PatchOps, Serialized, PatchedList;
    assert TxnBytes(t) == [] + t.header + (Serialized(t.ops) + t.rest);
    WordAt([], t.header, Serialized(t.ops) + t.rest, 8);
  }

  /** Where every index is in bounds, exactly the tagged values change, and to the constants they name. */
  lemma {:induction false} PatchedListOps(ops: seq<Op>, constants: seq<Byte>, k: nat)
    requires k < |ops| && (forall j :: 0 <= j < |ops| ==> OpOk(ops[j])) && AllPatchable(ops, constants)
    ensures PatchedList(ops, constants)[k] == PatchedOp(ops[k], constants)
    decreases k
  {
    PatchableFirst(ops, constants);
    if k > 0 {
      PatchedListOps(ops[1..], constants, k - 1);
    }
  }

  lemma PatchedValue(op: Op, constants: seq<Byte>)
    requires OpOk(op) && Patchable(op, constants)
    ensures var r := PatchedOp(op, constants);
            && r.head[..if op.opcode == 0 then 15 else 0] == op.head[..if op.opcode == 0 then 15 else 0]
            && (NeedsPatch(op) ==> ValueOf(r) == Word(constants, 4 * Index(ValueOf(op))))
            && (!NeedsPatch(op) ==> r == op)
  {
    if NeedsPatch(op) {
      var r := PatchedOp(op, constants);
      var v := Constant(ValueOf(op), constants);
      assert r.head == op.head[..15] + v + [];
      WordAt(op.head[..15], v, [], 0);
    }
  }
}
