/** Whole runs of the chunked buffer against a flat byte array with a cursor. */
module BufferRuns {
  import opened Blocks
  import opened ByteArrays

  /** A flat memory, of which the first `size` bytes are data. */
  datatype Flat = Flat(memory: seq<Byte>, size: nat, position: nat)

  datatype Op =
    | WriteOp(bytes: seq<Byte>)
    | ReadOp(n: nat)
    | SetPositionOp(val: nat)
    | ReceiveOp(len: nat, bytes: seq<Byte>)   // getWriteBuffers(len), fill, setPosition
    | ClearOp

  datatype Outcome = Done | Bytes(bytes: seq<Byte>) | OutOfRange | NullBlock

  /** A receive brings at most as much as there was room asked for. */
  ghost predicate Callable(op: Op) {
    op.ReceiveOp? ==> |op.bytes| <= op.len
  }

  /** Room for `need` bytes in whole blocks, and no block more than that takes. */
  ghost predicate Grown(base: nat, before: nat, need: nat, after: nat) {
    before <= after && need <= after && (after == before || after < need + base)
  }

  function Max(a: nat, b: nat): nat {
    if a > b then a else b
  }

  /** One operation of the flat memory: bytes past the data stay and can be seen again. */
  ghost predicate FlatStep(base: nat, f: Flat, op: Op, g: Flat, out: Outcome) {
    && f.position <= f.size <= |f.memory|
    && match op
       case WriteOp(x) =>
         && out == Done && g.position == f.position + |x| && g.size == Max(f.size, g.position)
         && Rewritten(f.memory, g.memory, f.position, x)
         && Grown(base, |f.memory|, g.position, |g.memory|)
       case ReceiveOp(len, x) =>
         && out == Done && g.position == f.position + |x| && g.size == Max(f.size, g.position)
         && Rewritten(f.memory, g.memory, f.position, x)
         && Grown(base, |f.memory|, f.position + len, |g.memory|)
       case ReadOp(n) =>
         if n > f.size - f.position then g == f && out == OutOfRange
         else if n == 0 && f.position == |f.memory| then g == f && out == NullBlock
         else g == f.(position := f.position + n) && out == Bytes(f.memory[f.position..f.position + n])
       case SetPositionOp(val) =>
         if val > |f.memory| then g == f && out == OutOfRange
         else g == f.(position := val, size := Max(f.size, val)) && out == Done
       case ClearOp =>
         out == Done && base <= |f.memory| && g == Flat(f.memory[..base], 0, 0)
  }

  ghost function Seen(f: Flat): seq<Byte>
    requires f.size <= |f.memory|
  {
    f.memory[..f.size]
  }

  /** Seen from outside: a write overwrites the data at the position, moving the position only lengthens
      it, a read leaves it alone. */
  lemma {:induction false} StepOnData(base: nat, f: Flat, op: Op, g: Flat, out: Outcome)
    requires FlatStep(base, f, op, g, out)
    ensures g.size <= |g.memory|
    ensures op.WriteOp? || op.ReceiveOp? ==> Seen(g) == Overwrite(Seen(f), f.position, op.bytes)
    ensures op.SetPositionOp? ==> Seen(f) <= Seen(g)
    ensures op.ReadOp? ==> Seen(g) == Seen(f)
    ensures op.ClearOp? ==> Seen(g) == []
  {
    if op.WriteOp? || op.ReceiveOp? {
      RewrittenSeen(f.memory, g.memory, f.size, f.position, op.bytes);
    }
  }

  ghost function View(b: ByteArray): Flat
    requires b.Valid()
    reads b, b.nodes, Arrays(b.nodes)
  {
    Flat(b.Mem(), b.size, b.position)
  }

  /** All blocks are among `nodes` and `arrays` or new. */
  twostate predicate Owned(b: ByteArray, new nodes: seq<Node>, new arrays: set<array<Byte>>)
    reads b`nodes
  {
    forall i :: 0 <= i < |b.nodes| ==>
      (b.nodes[i] in nodes || fresh(b.nodes[i])) && (b.nodes[i].ptr in arrays || fresh(b.nodes[i].ptr))
  }

  method PerformWrite(b: ByteArray, x: seq<Byte>)
    requires b.Valid()
    modifies b, b.nodes, Arrays(b.nodes)
    ensures b.Valid() && Owned(b, old(b.nodes), old(Arrays(b.nodes)))
    ensures FlatStep(b.baseSize, old(View(b)), WriteOp(x), View(b), Done)
  {
    b.MemLength();
    b.Write(x);
    b.MemLength();
    assert b.size == Max(old(b.size), b.position) by { OverwriteLength(old(b.Data()), old(b.position), x); }
  }

  method PerformReceive(b: ByteArray, len: nat, x: seq<Byte>)
    requires b.Valid() && |x| <= len
    modifies b, b.nodes, Arrays(b.nodes)
    ensures b.Valid() && Owned(b, old(b.nodes), old(Arrays(b.nodes)))
    ensures FlatStep(b.baseSize, old(View(b)), ReceiveOp(len, x), View(b), Done)
  {
    b.MemLength();
    b.Receive(len, x);
    b.MemLength();
    assert b.size == Max(old(b.size), b.position) by { OverwriteLength(old(b.Data()), old(b.position), x); }
  }

  method PerformMove(b: ByteArray, op: Op) returns (out: Outcome)
    requires b.Valid() && (op.ReadOp? || op.SetPositionOp?)
    modifies b`position, b`cur, b`at, b`size
    ensures b.Valid()
    ensures FlatStep(b.baseSize, old(View(b)), op, View(b), out)
  {
    b.MemLength();
    if op.ReadOp? {
      var r := b.Read(op.n);
      out := match r
        case ReadOk(x) => Bytes(x)
        case ReadBeyond => OutOfRange
        case ReadNull => NullBlock;
    } else {
      var ok := b.SetPosition(op.val);
      out := if ok then Done else OutOfRange;
    }
  }

  method PerformClear(b: ByteArray)
    requires b.Valid()
    modifies b, b.root
    ensures b.Valid() && b.nodes == old(b.nodes[..1])
    ensures FlatStep(b.baseSize, old(View(b)), ClearOp, View(b), Done)
  {
    b.MemLength();
    FirstBlock(b.blocks, b.baseSize);
    b.Clear();
  }

  /** One operation on the chunked buffer is one on the flat memory. */
  method Perform(b: ByteArray, op: Op) returns (out: Outcome)
    requires b.Valid() && Callable(op)
    modifies b, b.nodes, Arrays(b.nodes)
    ensures b.Valid() && Owned(b, old(b.nodes), old(Arrays(b.nodes)))
    ensures FlatStep(b.baseSize, old(View(b)), op, View(b), out)
  {
    out := Done;
    if op.ClearOp? {
      PerformClear(b);
    } else if op.ReadOp? || op.SetPositionOp? {
      out := PerformMove(b, op);
    } else if op.WriteOp? {
      PerformWrite(b, op.bytes);
    } else {
      PerformReceive(b, op.len, op.bytes);
    }
  }

  /** Every sequence of operations on the chunked buffer is a run of the flat memory, which `trace` records;
      in every state of it position <= size <= capacity. */
  method Run(b: ByteArray, ops: seq<Op>) returns (outs: seq<Outcome>, ghost trace: seq<Flat>)
    requires b.Valid() && forall i :: 0 <= i < |ops| ==> Callable(ops[i])
    modifies b, b.nodes, Arrays(b.nodes)
    ensures b.Valid() && |outs| == |ops| && |trace| == |ops| + 1
    ensures trace[0] == old(View(b)) && trace[|ops|] == View(b)
    ensures forall i :: 0 <= i < |ops| ==> FlatStep(b.baseSize, trace[i], ops[i], trace[i + 1], outs[i])
  {
    outs, trace := [], [View(b)];
    for i := 0 to |ops|
      invariant b.Valid() && Owned(b, old(b.nodes), old(Arrays(b.nodes)))
      invariant |outs| == i && |trace| == i + 1 && trace[0] == old(View(b)) && trace[i] == View(b)
      invariant forall j :: 0 <= j < i ==> FlatStep(b.baseSize, trace[j], ops[j], trace[j + 1], outs[j])
    {
      var out := Perform(b, ops[i]);
      outs, trace := outs + [out], trace + [View(b)];
    }
  }
}
