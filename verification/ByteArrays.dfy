/** The chunked byte buffer: a linked list of equal blocks with a cursor. */
module ByteArrays {
  import opened Blocks

  class Node {
    const ptr: array<Byte>
    var next: Node?

    constructor (size: nat)
      ensures fresh(ptr) && ptr.Length == size && next == null
    {
      ptr := new Byte[size];
      next := null;
    }
  }

  ghost function Arrays(nodes: seq<Node>): set<array<Byte>> {
    set n | n in nodes :: n.ptr
  }

  /** memcpy into a block. */
  method CopyIn(dst: array<Byte>, off: nat, src: seq<Byte>)
    requires off + |src| <= dst.Length
    modifies dst
    ensures dst[..] == Overwrite(old(dst[..]), off, src)
  {
    for i := 0 to |src|
      invariant dst[..] == Overwrite(old(dst[..]), off, src[..i])
    {
      OverwriteOneMore(dst[..], old(dst[..]), off, src, i);
      dst[off + i] := src[i];
    }
    assert src[..|src|] == src;
  }

  /** The least number of blocks of `base` bytes that hold `a` bytes. */
  function CeilDiv(a: int, base: nat): (c: nat)
    requires base > 0
    ensures Times(c, base) >= a
    ensures c > 0 ==> Times(c - 1, base) < a
  {
    if a <= 0 then 0 else CeilDiv(a - base, base) + 1
  }

  // ---------------------------------------------------------------- scatter/gather

  /** An iovec: `length` bytes of a block from `offset` on. */
  datatype Region = Region(base: array<Byte>, offset: nat, length: nat)

  ghost predicate InBounds(rs: seq<Region>) {
    forall r :: r in rs ==> r.offset + r.length <= r.base.Length
  }

  ghost predicate Disjoint(rs: seq<Region>) {
    forall i, j :: 0 <= i < j < |rs| ==> rs[i].base != rs[j].base
  }

  ghost function Bases(rs: seq<Region>): set<array<Byte>> {
    set r | r in rs :: r.base
  }

  ghost function Total(rs: seq<Region>): nat {
    if rs == [] then 0 else rs[0].length + Total(rs[1..])
  }

  /** What a gathering write sends. */
  ghost function Gather(rs: seq<Region>): seq<Byte>
    requires InBounds(rs)
    reads Bases(rs)
  {
    if rs == [] then [] else rs[0].base[rs[0].offset..rs[0].offset + rs[0].length] + Gather(rs[1..])
  }

  /** The part of `data` that a scattering read puts into region `i`. */
  ghost function Piece(rs: seq<Region>, data: seq<Byte>, i: nat): seq<Byte>
    requires i < |rs|
  {
    var n := if |data| <= rs[0].length then |data| else rs[0].length;
    if i == 0 then data[..n] else Piece(rs[1..], data[n..], i - 1)
  }

  lemma {:induction false} PieceFits(rs: seq<Region>, data: seq<Byte>, i: nat)
    requires i < |rs|
    ensures |Piece(rs, data, i)| <= rs[i].length
  {
    if i > 0 {
      var n := if |data| <= rs[0].length then |data| else rs[0].length;
      PieceFits(rs[1..], data[n..], i - 1);
    }
  }

  /** A scattering read (`readv`): fills the regions in order until `data` is used up. */
  method Scatter(rs: seq<Region>, data: seq<Byte>)
    requires InBounds(rs) && Disjoint(rs)
    modifies Bases(rs)
    ensures forall i :: 0 <= i < |rs| ==>
              && rs[i].offset + |Piece(rs, data, i)| <= |old(rs[i].base[..])|
              && rs[i].base[..] == Overwrite(old(rs[i].base[..]), rs[i].offset, Piece(rs, data, i))
  {
    if rs == [] {
      return;
    }
    var n := if |data| <= rs[0].length then |data| else rs[0].length;
    CopyIn(rs[0].base, rs[0].offset, data[..n]);
    forall i | 1 <= i < |rs| ensures rs[i].base[..] == old(rs[i].base[..]) && rs[i] == rs[1..][i - 1] {
    }
    Scatter(rs[1..], data[n..]);
    forall i | 0 <= i < |rs|
      ensures rs[i].offset + |Piece(rs, data, i)| <= rs[i].base.Length
      ensures rs[i].base[..] == Overwrite(old(rs[i].base[..]), rs[i].offset, Piece(rs, data, i))
    {
      PieceFits(rs, data, i);
      if i > 0 {
        assert rs[i] == rs[1..][i - 1];
      }
    }
  }

  /** The regions for `len` bytes from `off` in block `k` on. */
  ghost function RegionsOf(nodes: seq<Node>, base: nat, k: nat, off: nat, len: nat): seq<Region>
    requires off < base && Times(k, base) + off + len <= Times(|nodes|, base)
    decreases len
  {
    if len == 0 then [] else
      BlockInRange(k, |nodes|, base, off + len);
      if len <= base - off then [Region(nodes[k].ptr, off, len)]
      else [Region(nodes[k].ptr, off, base - off)] + RegionsOf(nodes, base, k + 1, 0, len - (base - off))
  }

  /** The region lies in block number `j`. */
  ghost predicate LiesIn(r: Region, nodes: seq<Node>, base: nat, j: nat) {
    j < |nodes| && r.base == nodes[j].ptr && r.offset + r.length <= base
  }

  ghost predicate InOrder(rs: seq<Region>, nodes: seq<Node>, base: nat, k: nat) {
    forall i :: 0 <= i < |rs| ==> LiesIn(rs[i], nodes, base, k + i)
  }

  lemma {:induction false} InOrderCons(r: Region, rest: seq<Region>, nodes: seq<Node>, base: nat, k: nat)
    requires LiesIn(r, nodes, base, k) && InOrder(rest, nodes, base, k + 1)
    ensures InOrder([r] + rest, nodes, base, k) && Total([r] + rest) == r.length + Total(rest)
  {
    var rs := [r] + rest;
    assert rs[1..] == rest;
    forall i | 0 <= i < |rs| ensures LiesIn(rs[i], nodes, base, k + i) {
      if i > 0 {
        assert LiesIn(rest[i - 1], nodes, base, k + 1 + (i - 1));
      }
    }
  }

  /** Each region lies in its own block and together they measure `len`. */
  lemma {:induction false} RegionsInBlocks(nodes: seq<Node>, base: nat, k: nat, off: nat, len: nat)
    requires off < base && Times(k, base) + off + len <= Times(|nodes|, base)
    ensures var rs := RegionsOf(nodes, base, k, off, len);
      && InOrder(rs, nodes, base, k) && Total(rs) == len
      && (k + |rs| <= |nodes| || len == 0)
    decreases len
  {
    if len > 0 {
      BlockInRange(k, |nodes|, base, off + len);
      if len <= base - off {
        var r := Region(nodes[k].ptr, off, len);
        InOrderCons(r, [], nodes, base, k);
        assert [r] + [] == [r];
      } else {
        var n := base - off;
        RegionsInBlocks(nodes, base, k + 1, 0, len - n);
        InOrderCons(Region(nodes[k].ptr, off, n), RegionsOf(nodes, base, k + 1, 0, len - n), nodes, base, k);
      }
    }
  }

  /** The regions lie one each in the blocks from `k` on, and so in different ones. */
  ghost predicate Apart(rs: seq<Region>, nodes: seq<Node>, base: nat, k: nat) {
    && InBounds(rs) && Disjoint(rs) && Bases(rs) <= Arrays(nodes)
    && k + |rs| <= |nodes| && InOrder(rs, nodes, base, k)
  }

  lemma {:induction false} RegionsApart(rs: seq<Region>, nodes: seq<Node>, base: nat, k: nat)
    requires forall i :: 0 <= i < |nodes| ==> nodes[i].ptr.Length == base
    requires forall i, j :: 0 <= i < j < |nodes| ==> nodes[i].ptr != nodes[j].ptr
    requires InOrder(rs, nodes, base, k)
    ensures InBounds(rs) && Disjoint(rs) && Bases(rs) <= Arrays(nodes)
  {
    forall i | 0 <= i < |rs| ensures rs[i].base in Arrays(nodes) {
      assert LiesIn(rs[i], nodes, base, k + i);
      assert nodes[k + i] in nodes;
    }
    forall i, j | 0 <= i < j < |rs| ensures rs[i].base != rs[j].base {
      assert LiesIn(rs[i], nodes, base, k + i) && LiesIn(rs[j], nodes, base, k + j);
    }
  }

  lemma {:induction false} RegionsOfApart(rs: seq<Region>, nodes: seq<Node>, base: nat, k: nat, off: nat, len: nat)
    requires forall i :: 0 <= i < |nodes| ==> nodes[i].ptr.Length == base
    requires forall i, j :: 0 <= i < j < |nodes| ==> nodes[i].ptr != nodes[j].ptr
    requires off < base && k <= |nodes| && Times(k, base) + off + len <= Times(|nodes|, base)
    requires rs == RegionsOf(nodes, base, k, off, len)
    ensures Apart(rs, nodes, base, k) && Total(rs) == len
  {
    RegionsInBlocks(nodes, base, k, off, len);
    RegionsApart(rs, nodes, base, k);
  }

  lemma {:induction false} AfterPrefix<T>(a: seq<T>, b: seq<T>)
    ensures (a + b)[|a|..] == b
  {
  }

  /** Block `j` once the regions `rs`, the first of them in block `k`, are filled with `data`. */
  ghost function Filled(b: seq<Byte>, rs: seq<Region>, data: seq<Byte>, k: nat, j: nat): seq<Byte> {
    if k <= j < k + |rs| && rs[j - k].offset <= |b|
    then Overwrite(b, rs[j - k].offset, Piece(rs, data, j - k)) else b
  }

  /** A scattering read into regions that lie in the blocks from `k` on. */
  method ScatterIntoBlocks(rs: seq<Region>, data: seq<Byte>,
      ghost nodes: seq<Node>, ghost bs: seq<seq<Byte>>, ghost base: nat, ghost k: nat)
    requires Apart(rs, nodes, base, k) && |bs| == |nodes|
    requires forall i :: 0 <= i < |nodes| ==> nodes[i].ptr[..] == bs[i]
    requires forall i, j :: 0 <= i < j < |nodes| ==> nodes[i].ptr != nodes[j].ptr
    modifies Bases(rs)
    ensures forall j :: 0 <= j < |nodes| ==> nodes[j].ptr[..] == Filled(bs[j], rs, data, k, j)
  {
    Scatter(rs, data);
    forall j | 0 <= j < |nodes| ensures nodes[j].ptr[..] == Filled(bs[j], rs, data, k, j) {
      if k <= j < k + |rs| {
        assert LiesIn(rs[j - k], nodes, base, k + (j - k));
        assert old(rs[j - k].base[..]) == bs[j];
      } else {
        assert nodes[j].ptr !in Bases(rs);
      }
    }
  }

  /** Filling the regions is writing block by block. */
  lemma {:induction false} FillIsWriteInto(
      nodes: seq<Node>, bs: seq<seq<Byte>>, base: nat, k: nat, off: nat, len: nat, data: seq<Byte>, j: nat)
    requires Uniform(bs, base) && |bs| == |nodes| && off < base
    requires Times(k, base) + off + len <= Times(|nodes|, base)
    requires 0 < |data| <= len && j < |bs|
    ensures |WriteInto(bs, base, k, off, data)| == |bs|
    ensures WriteInto(bs, base, k, off, data)[j] == Filled(bs[j], RegionsOf(nodes, base, k, off, len), data, k, j)
    decreases len
  {
    BlockInRange(k, |nodes|, base, off + len);
    if |data| <= base - off {
      FillFirst(nodes, bs, base, k, off, len, data, j);
    } else {
      var n := base - off;
      var rs := RegionsOf(nodes, base, k, off, len);
      var cs := bs[k := Overwrite(bs[k], off, data[..n])];
      assert rs[1..] == RegionsOf(nodes, base, k + 1, 0, len - n);
      FillIsWriteInto(nodes, cs, base, k + 1, 0, len - n, data[n..], j);
      FilledRest(bs[j], rs, data, k, j);
    }
  }

  /** Filling the first region, then the rest with what is left. */
  lemma {:induction false} FilledRest(b: seq<Byte>, rs: seq<Region>, data: seq<Byte>, k: nat, j: nat)
    requires rs != [] && rs[0].length < |data| && rs[0].offset <= |b|
    ensures j == k ==> Filled(b, rs, data, k, j) == Overwrite(b, rs[0].offset, data[..rs[0].length])
    ensures j != k ==> Filled(b, rs, data, k, j) == Filled(b, rs[1..], data[rs[0].length..], k + 1, j)
  {
  }

  lemma {:induction false} FillFirst(
      nodes: seq<Node>, bs: seq<seq<Byte>>, base: nat, k: nat, off: nat, len: nat, data: seq<Byte>, j: nat)
    requires Uniform(bs, base) && |bs| == |nodes| && off < base && k < |nodes|
    requires Times(k, base) + off + len <= Times(|nodes|, base)
    requires 0 < |data| <= len && j < |bs| && |data| <= base - off
    ensures bs[k := Overwrite(bs[k], off, data)][j]
         == Filled(bs[j], RegionsOf(nodes, base, k, off, len), data, k, j)
  {
    var rs := RegionsOf(nodes, base, k, off, len);
    assert rs[0].offset == off && |data| <= rs[0].length && data[..|data|] == data;
    if k < j < k + |rs| {
      assert data[|data|..] == [];
      PieceOfNothing(rs[1..], j - k - 1);
      if rs[j - k].offset <= base {
        OverwriteNothing(bs[j], rs[j - k].offset);
      }
    }
  }

  lemma {:induction false} PieceOfNothing(rs: seq<Region>, i: nat)
    requires i < |rs|
    ensures Piece(rs, [], i) == []
  {
    if i > 0 {
      PieceOfNothing(rs[1..], i - 1);
    }
  }

  ghost predicate HoldsBlocks(nodes: seq<Node>, bs: seq<seq<Byte>>, base: nat)
    reads Arrays(nodes)
  {
    && Uniform(bs, base) && |bs| == |nodes|
    && forall i :: 0 <= i < |nodes| ==> nodes[i].ptr.Length == base && nodes[i].ptr[..] == bs[i]
  }

  lemma {:induction false} GatherStep(
      nodes: seq<Node>, bs: seq<seq<Byte>>, base: nat, k: nat, off: nat, n: nat, rest: seq<Region>)
    requires HoldsBlocks(nodes, bs, base) && k < |nodes| && off + n <= base && InBounds(rest)
    ensures InBounds([Region(nodes[k].ptr, off, n)] + rest)
    ensures Gather([Region(nodes[k].ptr, off, n)] + rest) == bs[k][off..off + n] + Gather(rest)
  {
    var rs := [Region(nodes[k].ptr, off, n)] + rest;
    assert rs[1..] == rest;
    assert nodes[k].ptr[..][off..off + n] == nodes[k].ptr[off..off + n];
  }

  /** Gathering the regions is reading block by block. */
  lemma {:induction false} GatherIsReadFrom(
      nodes: seq<Node>, bs: seq<seq<Byte>>, base: nat, k: nat, off: nat, len: nat)
    requires HoldsBlocks(nodes, bs, base) && off < base
    requires Times(k, base) + off + len <= Times(|nodes|, base)
    ensures InBounds(RegionsOf(nodes, base, k, off, len))
    ensures Gather(RegionsOf(nodes, base, k, off, len)) == ReadFrom(bs, base, k, off, len)
    decreases len
  {
    if len > 0 {
      BlockInRange(k, |nodes|, base, off + len);
      if len <= base - off {
        GatherOne(nodes, bs, base, k, off, len);
      } else {
        var n := base - off;
        GatherIsReadFrom(nodes, bs, base, k + 1, 0, len - n);
        GatherMore(nodes, bs, base, k, off, len, n, RegionsOf(nodes, base, k + 1, 0, len - n));
      }
    }
  }

  lemma {:induction false} GatherOne(nodes: seq<Node>, bs: seq<seq<Byte>>, base: nat, k: nat, off: nat, len: nat)
    requires HoldsBlocks(nodes, bs, base) && k < |nodes| && 0 < len && off < base && len <= base - off
    requires Times(k, base) + off + len <= Times(|nodes|, base)
    ensures InBounds(RegionsOf(nodes, base, k, off, len))
    ensures Gather(RegionsOf(nodes, base, k, off, len)) == ReadFrom(bs, base, k, off, len)
  {
    var r := Region(nodes[k].ptr, off, len);
    GatherStep(nodes, bs, base, k, off, len, []);
    assert [r] + [] == [r] && Gather([]) == [];
  }

  lemma {:induction false} GatherMore(
      nodes: seq<Node>, bs: seq<seq<Byte>>, base: nat, k: nat, off: nat, len: nat, n: nat, rest: seq<Region>)
    requires HoldsBlocks(nodes, bs, base) && k < |nodes| && off < base && n == base - off < len
    requires Times(k, base) + off + len <= Times(|nodes|, base)
    requires Times(k + 1, base) + (len - n) <= Times(|nodes|, base)
    requires rest == RegionsOf(nodes, base, k + 1, 0, len - n) && InBounds(rest)
    requires Gather(rest) == ReadFrom(bs, base, k + 1, 0, len - n)
    ensures InBounds(RegionsOf(nodes, base, k, off, len))
    ensures Gather(RegionsOf(nodes, base, k, off, len)) == ReadFrom(bs, base, k, off, len)
  {
    ReadFromSplits(bs, base, k, off, len, n);
    GatherStep(nodes, bs, base, k, off, n, rest);
    assert RegionsOf(nodes, base, k, off, len) == [Region(nodes[k].ptr, off, n)] + rest;
  }

  /** What `read` does: `ReadNull` is a look into the block where there is none. */
  datatype ReadResult = ReadOk(bytes: seq<Byte>) | ReadBeyond | ReadNull

  /** What `getReadBuffers` with a position does: the count and the regions, or a look into the block where
      there is none. */
  datatype BuffersResult = Buffers(count: nat, regions: seq<Region>) | BuffersNull

  /** `size - p` in 64-bit unsigned arithmetic. */
  function Behind(size: nat, p: nat): int {
    if p <= size then size - p else size - p + 0x1_0000_0000_0000_0000
  }

  class ByteArray {
    const baseSize: nat
    const root: Node
    var position: nat
    var capacity: nat
    var size: nat
    var cur: Node?
    ghost var nodes: seq<Node>            // the blocks in list order
    ghost var blocks: seq<seq<Byte>>      // and their contents
    ghost var at: nat                     // the number of the current block

    /** The blocks hang together in the order of `nodes`. */
    ghost predicate Chain()
      reads this`nodes, nodes
    {
      && baseSize > 0
      && |nodes| > 0 && nodes[0] == root
      && (forall i :: 0 <= i < |nodes| ==> nodes[i].ptr.Length == baseSize)
      && (forall i {:trigger nodes[i].next} :: 0 <= i < |nodes| ==>
            nodes[i].next == if i + 1 < |nodes| then nodes[i + 1] else null)
      && (forall i, j :: 0 <= i < j < |nodes| ==> nodes[i] != nodes[j] && nodes[i].ptr != nodes[j].ptr)
    }

    ghost predicate Backed()
      reads this`nodes, this`blocks, Arrays(nodes)
    {
      |blocks| == |nodes| && forall i :: 0 <= i < |nodes| ==> nodes[i].ptr[..] == blocks[i]
    }

    /** The current block is the one the position falls into; there is none at the very end. */
    ghost predicate CurOk()
      reads this`nodes, this`cur, this`at, this`position
    {
      && position == Times(at, baseSize) + Offset()
      && (if at < |nodes| then cur == nodes[at] && 0 <= Offset() < baseSize
          else at == |nodes| && cur == null && Offset() == 0)
    }

    ghost function Offset(): int
      reads this`at, this`position
    {
      position - Times(at, baseSize)
    }

    ghost predicate Sizes()
      reads this
    {
      capacity == Times(|nodes|, baseSize) && position <= size <= capacity
    }

    ghost predicate Valid()
      reads this, nodes, Arrays(nodes)
    {
      Chain() && Backed() && CurOk() && Sizes()
    }

    /** All bytes of all blocks in order. */
    ghost function Mem(): seq<Byte>
      reads this`blocks
    {
      Flat(blocks)
    }

    lemma {:induction false} MemLength()
      requires Chain() && Backed()
      ensures |Mem()| == Times(|nodes|, baseSize) && Uniform(blocks, baseSize)
    {
      FlatLength(blocks, baseSize);
    }

    /** The flat byte array this buffer stands for. */
    ghost function Data(): (d: seq<Byte>)
      requires Valid()
      reads this, nodes, Arrays(nodes)
      ensures |d| == size
    {
      MemLength();
      Mem()[..size]
    }

    constructor (base: nat)
      requires base > 0
      ensures Valid() && baseSize == base && capacity == base
      ensures position == 0 && Data() == []
      ensures fresh(nodes) && fresh(Arrays(nodes))
    {
      var first := new Node(base);
      baseSize, root := base, first;
      position, capacity, size := 0, base, 0;
      cur := first;
      nodes, blocks, at := [first], [first.ptr[..]], 0;
      new;
      assert Times(1, base) == base;
    }

    lemma {:induction false} NullAtCapacity()
      requires Valid()
      ensures cur == null <==> position == capacity
      ensures cur == null <==> at == |nodes|
    {
      if at < |nodes| {
        TimesMono(at + 1, |nodes|, baseSize);
      }
    }

    /** The current block is number position / base size; it is null exactly at the capacity. */
    lemma {:induction false} CurIsBlockOfPosition()
      requires Valid()
      ensures cur == null <==> position == capacity
      ensures cur != null ==> position / baseSize < |nodes| && cur == nodes[position / baseSize]
      ensures cur != null ==> at < |nodes| && position % baseSize == Offset()
      ensures position <= size <= capacity == |nodes| * baseSize
    {
      NullAtCapacity();
      TimesIsProduct(|nodes|, baseSize);
      if at < |nodes| {
        DivMod(at, baseSize, Offset());
      }
    }

    /** The list has at most been lengthened, by new blocks. */
    twostate predicate Extended()
      reads this`nodes
    {
      && old(nodes) <= nodes
      && forall i :: old(|nodes|) <= i < |nodes| ==> fresh(nodes[i]) && fresh(nodes[i].ptr)
    }

    // ------------------------------------------------------------ capacity

    method Tail() returns (tail: Node)
      requires Chain()
      ensures tail == nodes[|nodes| - 1]
    {
      tail := root;
      ghost var i := 0;
      while tail.next != null
        invariant 0 <= i < |nodes| && tail == nodes[i]
        invariant tail.next == if i + 1 < |nodes| then nodes[i + 1] else null
        decreases |nodes| - i
      {
        tail := tail.next;
        i := i + 1;
      }
    }

    method Append(tail: Node) returns (node: Node)
      requires Chain() && Backed() && tail == nodes[|nodes| - 1]
      modifies this`nodes, this`blocks, tail
      ensures Chain() && Backed() && nodes == old(nodes) + [node] && fresh(node) && fresh(node.ptr)
      ensures blocks == old(blocks) + [node.ptr[..]]
    {
      node := new Node(baseSize);
      tail.next := node;
      nodes, blocks := nodes + [node], blocks + [node.ptr[..]];
    }

    /** Hangs `count` new blocks onto the list. */
    method AppendBlocks(count: nat) returns (first: Node?)
      requires Chain() && Backed()
      modifies this`nodes, this`blocks, this`capacity, nodes
      ensures Chain() && Backed() && |nodes| == old(|nodes|) + count
      ensures old(nodes) <= nodes && old(blocks) <= blocks
      ensures capacity == old(capacity) + Times(count, baseSize)
      ensures forall i :: old(|nodes|) <= i < |nodes| ==> fresh(nodes[i]) && fresh(nodes[i].ptr)
      ensures count > 0 ==> first == nodes[old(|nodes|)]
    {
      var tmp := Tail();
      first := null;
      for i := 0 to count
        invariant Chain() && Backed() && tmp == nodes[|nodes| - 1]
        invariant |nodes| == old(|nodes|) + i && old(nodes) <= nodes && old(blocks) <= blocks
        invariant capacity == old(capacity) + Times(i, baseSize)
        invariant forall j :: old(|nodes|) <= j < |nodes| ==> fresh(nodes[j]) && fresh(nodes[j].ptr)
        invariant tmp in old(nodes) || fresh(tmp)
        invariant if i == 0 then first == null else first == nodes[old(|nodes|)]
      {
        var node := Append(tmp);
        if first == null {
          first := node;
        }
        tmp := node;
        capacity := capacity + baseSize;
      }
    }

    /** `count` more blocks behind those there are. */
    method GrowBlocks(count: nat)
      requires Valid() && count > 0
      modifies this`nodes, this`blocks, this`capacity, this`cur, nodes
      ensures Valid() && |nodes| == old(|nodes|) + count && old(nodes) <= nodes && old(blocks) <= blocks
      ensures capacity == old(capacity) + Times(count, baseSize)
      ensures forall i :: old(|nodes|) <= i < |nodes| ==> fresh(nodes[i]) && fresh(nodes[i].ptr)
    {
      TimesAdd(|nodes|, count, baseSize);
      NullAtCapacity();
      var full := position == capacity;
      var first := AppendBlocks(count);
      if full {
        cur := first;
      }
      assert Chain() && Backed() && CurOk() && Sizes();
    }

    /** The bytes there are stay where they are. */
    method Grow(count: nat)
      requires Valid() && count > 0
      modifies this`nodes, this`blocks, this`capacity, this`cur, nodes
      ensures Valid() && |nodes| == old(|nodes|) + count && old(nodes) <= nodes && Data() == old(Data())
      ensures old(Mem()) <= Mem()
      ensures capacity == old(capacity) + Times(count, baseSize)
      ensures forall i :: old(|nodes|) <= i < |nodes| ==> fresh(nodes[i]) && fresh(nodes[i].ptr)
    {
      MemLength();
      GrowBlocks(count);
      FlatPrefix(old(blocks), blocks);
      SeenPrefix(old(blocks), blocks, size);
    }

    /** Makes room for `n` bytes behind the position by hanging on as many blocks as are missing. */
    method AddCapacity(n: nat)
      requires Valid()
      modifies this`nodes, this`blocks, this`capacity, this`cur, nodes
      ensures Valid() && old(nodes) <= nodes && Data() == old(Data())
      ensures old(Mem()) <= Mem()
      ensures capacity - position >= n
      ensures old(capacity) <= capacity
      ensures capacity == old(capacity) || capacity - position < n + baseSize
      ensures forall i :: old(|nodes|) <= i < |nodes| ==> fresh(nodes[i]) && fresh(nodes[i].ptr)
    {
      var oldCap := capacity - position;
      if n == 0 || oldCap >= n {
        return;
      }
      Grow(CeilDiv(n - oldCap, baseSize));
    }

    // ------------------------------------------------------------ reading and writing

    /** Writes within the current block. */
    method Store(off: nat, src: seq<Byte>)
      requires Chain() && Backed() && at < |nodes| && cur == nodes[at] && off + |src| <= baseSize
      modifies this`blocks, cur.ptr
      ensures Chain() && Backed() && |old(blocks[at])| == baseSize
      ensures blocks == old(blocks[at := Overwrite(blocks[at], off, src)])
    {
      CopyIn(cur.ptr, off, src);
      blocks := blocks[at := Overwrite(blocks[at], off, src)];
    }

    /** Moves on to the next block. */
    method Advance()
      requires Chain() && at < |nodes| && cur == nodes[at]
      modifies this`cur, this`at
      ensures at == old(at) + 1 && cur == if at < |nodes| then nodes[at] else null
    {
      assert nodes[at].next == if at + 1 < |nodes| then nodes[at + 1] else null;
      cur := cur.next;
      at := at + 1;
    }

    /** The position is `npos` bytes into the current block, which has room for `ncap` more. */
    ghost predicate InBlock(npos: nat, ncap: nat)
      reads this`nodes, this`cur, this`at, this`position
    {
      && at < |nodes| && cur == nodes[at]
      && position == Times(at, baseSize) + npos
      && npos < baseSize && ncap == baseSize - npos
    }

    /** Steps the position over `n` bytes of the current block; past its last byte the next block
        becomes the current one. */
    method Skip(n: nat, npos: nat, ghost ncap: nat)
      requires Chain() && InBlock(npos, ncap) && n <= ncap
      modifies this`position, this`cur, this`at
      ensures position == old(position) + n
      ensures CurOk()
      ensures n == ncap ==> at == old(at) + 1
      ensures n == ncap && at < |nodes| ==> InBlock(0, baseSize)
    {
      TimesAdd(at, 1, baseSize);
      if cur.ptr.Length == npos + n {
        Advance();
      }
      position := position + n;
    }

    /** Short of the capacity there is a current block. */
    lemma {:induction false} RoomMeansBlock()
      requires CurOk() && position < Times(|nodes|, baseSize)
      ensures at < |nodes|
    {
    }

    /** Writes `src` into the current block and steps over it. */
    method PutChunk(src: seq<Byte>, npos: nat, ghost ncap: nat)
      requires Chain() && Backed() && InBlock(npos, ncap) && |src| <= ncap
      modifies this`position, this`cur, this`at, this`blocks, cur.ptr
      ensures Chain() && Backed() && CurOk() && position == old(position) + |src|
      ensures |old(blocks[at])| == baseSize
      ensures blocks == old(blocks[at := Overwrite(blocks[at], npos, src)])
      ensures |src| == ncap ==> at == old(at) + 1
      ensures |src| == ncap && at < |nodes| ==> InBlock(0, baseSize)
    {
      Store(npos, src);
      Skip(|src|, npos, ncap);
    }

    /** Writing `x` from `npos` on in the current block would lead to `goal`. */
    ghost predicate ToWrite(npos: nat, x: seq<Byte>, goal: seq<seq<Byte>>)
      reads this`blocks, this`at
    {
      && Uniform(blocks, baseSize)
      && if x == [] then blocks == goal else
           && npos < baseSize && Times(at, baseSize) + npos + |x| <= Times(|blocks|, baseSize)
           && WriteInto(blocks, baseSize, at, npos, x) == goal
    }

    /** One round of `write`: as much of `buf[bpos..]` as fits into the current block. */
    method WriteChunk(buf: seq<Byte>, bpos: nat, npos: nat, ncap: nat, ghost goal: seq<seq<Byte>>)
      returns (n: nat)
      requires Chain() && Backed() && InBlock(npos, ncap) && bpos < |buf| && ToWrite(npos, buf[bpos..], goal)
      modifies this`position, this`cur, this`at, this`blocks, cur.ptr
      ensures 0 < n <= |buf| - bpos && position == old(position) + n
      ensures Chain() && Backed() && CurOk() && ToWrite(0, buf[bpos + n..], goal)
      ensures bpos + n < |buf| ==> InBlock(0, baseSize)
    {
      var left := |buf| - bpos;
      n := if ncap >= left then left else ncap;
      ghost var bs, k := blocks, at;
      PutChunk(buf[bpos..bpos + n], npos, ncap);
      WriteIntoStep(bs, blocks, baseSize, k, npos, buf, bpos, n);
      if bpos + n < |buf| {
        BlockInRange(at, |nodes|, baseSize, |buf| - bpos - n);
      }
    }

    /** The loop of `write`: what is left of `buf` goes into the current block as far as it fits, then
        into the next one. */
    method WriteBlocks(buf: seq<Byte>, ghost goal: seq<seq<Byte>>)
      requires Chain() && Backed() && CurOk() && at < |nodes|
      requires position % baseSize == Offset() && ToWrite(Offset(), buf, goal)
      modifies this`position, this`cur, this`at, this`blocks, Arrays(nodes)
      ensures Chain() && Backed() && CurOk() && position == old(position) + |buf|
      ensures blocks == goal
    {
      var npos: nat := position % baseSize;
      var ncap: nat := cur.ptr.Length - npos;
      var bpos: nat := 0;
      assert buf[bpos..] == buf;
      while bpos < |buf|
        invariant bpos <= |buf| && position == old(position) + bpos
        invariant Chain() && Backed() && CurOk() && ToWrite(npos, buf[bpos..], goal)
        invariant bpos < |buf| ==> InBlock(npos, ncap)
      {
        var n := WriteChunk(buf, bpos, npos, ncap, goal);
        bpos := bpos + n;
        if bpos < |buf| {
          npos, ncap := 0, cur.ptr.Length;
        }
      }
    }
  
    /** What the blocks are to hold after writing `buf` at the position. */
    lemma {:induction false} PlanWrite(buf: seq<Byte>, newSize: nat)
      returns (goal: seq<seq<Byte>>)
      requires Valid() && |buf| > 0 && capacity - position >= |buf|
      requires newSize == if position + |buf| > size then position + |buf| else size
      ensures at < |nodes| && position % baseSize == Offset() && ToWrite(Offset(), buf, goal)
      ensures newSize <= |Flat(goal)| && Flat(goal)[..newSize] == Overwrite(Data(), position, buf)
      ensures position + |buf| <= |Mem()| && Flat(goal) == Overwrite(Mem(), position, buf)
    {
      MemLength();
      CurIsBlockOfPosition();
      goal := WriteInto(blocks, baseSize, at, Offset(), buf);
      WriteIntoIsOverwrite(blocks, baseSize, at, Offset(), buf);
      OverwriteSeen(Mem(), Mem(), size, position, buf);
    }

    /** `write` once there is room. */
    method WriteInPlace(buf: seq<Byte>, ghost goal: seq<seq<Byte>>)
      requires Valid() && |buf| > 0 && capacity - position >= |buf|
      requires at < |nodes| && position % baseSize == Offset() && ToWrite(Offset(), buf, goal)
      modifies this`position, this`cur, this`at, this`blocks, this`size, Arrays(nodes)
      ensures Valid() && position == old(position) + |buf|
      ensures size == if position > old(size) then position else old(size)
      ensures blocks == goal
    {
      WriteBlocks(buf, goal);
      if position > size {
        size := position;
      }
    }

    method WriteWithRoom(buf: seq<Byte>)
      requires Valid() && |buf| > 0 && capacity - position >= |buf|
      modifies this`position, this`cur, this`at, this`blocks, this`size, Arrays(nodes)
      ensures Valid() && position == old(position) + |buf|
      ensures Data() == Overwrite(old(Data()), old(position), buf)
      ensures position <= |old(Mem())| && Mem() == Overwrite(old(Mem()), old(position), buf)
    {
      ghost var newSize := if position + |buf| > size then position + |buf| else size;
      ghost var goal := PlanWrite(buf, newSize);
      WriteInPlace(buf, goal);
      assert Data() == Flat(goal)[..newSize];
    }

    /** `write`: the flat array is overwritten at the position and grows if need be. */
    method Write(buf: seq<Byte>)
      requires Valid()
      modifies this, nodes, Arrays(nodes)
      ensures Valid()
      ensures position == old(position) + |buf|
      ensures Data() == Overwrite(old(Data()), old(position), buf)
      ensures Rewritten(old(Mem()), Mem(), old(position), buf)
      ensures old(capacity) <= capacity && (capacity == old(capacity) || capacity < position + baseSize)
      ensures Extended()
    {
      if |buf| == 0 {
        OverwriteNothing(Data(), position);
        MemLength();
        return;
      }
      ghost var mem := Mem();
      AddCapacity(|buf|);
      ghost var grown := Mem();
      MemLength();
      OverwriteRewrites(mem, grown, position, buf);
      WriteWithRoom(buf);
      assert Valid();
    }
  
    /** memcpy out of the current block, then stepping over it. */
    method TakeChunk(n: nat, npos: nat, ghost ncap: nat) returns (chunk: seq<Byte>)
      requires Chain() && Backed() && InBlock(npos, ncap) && n <= ncap
      modifies this`position, this`cur, this`at
      ensures CurOk() && position == old(position) + n <= |Mem()|
      ensures chunk == Mem()[old(position)..position]
      ensures n == ncap && at < |nodes| ==> InBlock(0, baseSize)
    {
      MemLength();
      FlatSlice(blocks, baseSize, at, npos, n);
      chunk := cur.ptr[npos..npos + n];
      Skip(n, npos, ncap);
    }

    /** One round of `read`, after `out` has been read from `start` on. */
    method ReadChunk(out: seq<Byte>, ghost start: nat, n: nat, npos: nat, ghost ncap: nat) returns (more: seq<Byte>)
      requires Chain() && Backed() && InBlock(npos, ncap) && n <= ncap
      requires start <= position <= |Mem()| && out == Mem()[start..position]
      modifies this`position, this`cur, this`at
      ensures CurOk() && position == old(position) + n <= |Mem()|
      ensures more == Mem()[start..position]
      ensures n == ncap && at < |nodes| ==> InBlock(0, baseSize)
    {
      ghost var mem, p := Mem(), position;
      var chunk := TakeChunk(n, npos, ncap);
      SliceMore(mem, start, p - start, n);
      more := out + chunk;
    }

    /** The loop of `read`. */
    method ReadBlocks(n: nat) returns (out: seq<Byte>)
      requires Chain() && Backed() && CurOk() && at < |nodes| && position % baseSize == Offset()
      requires position + n <= |Mem()|
      modifies this`position, this`cur, this`at
      ensures CurOk() && position == old(position) + n
      ensures out == Mem()[old(position)..position]
    {
      ghost var mem, start := Mem(), position;
      MemLength();
      var npos: nat := position % baseSize;
      var ncap: nat := cur.ptr.Length - npos;
      var left: nat := n;
      out := [];
      while left > 0
        invariant left <= n && position == start + n - left
        invariant CurOk() && out == mem[start..position]
        invariant left > 0 ==> InBlock(npos, ncap)
      {
        var k := if ncap >= left then left else ncap;
        out := ReadChunk(out, start, k, npos, ncap);
        left := left - k;
        if left > 0 {
          RoomMeansBlock();
          npos, ncap := 0, cur.ptr.Length;
        }
      }
    }

    /** `read`: refused beyond the size, otherwise the next `n` bytes, which the position steps over. The
        block is looked into even when nothing is to be read, and at the capacity there is none. */
    method Read(n: nat) returns (r: ReadResult)
      requires Valid()
      modifies this`position, this`cur, this`at
      ensures Valid() && Data() == old(Data())
      ensures r.ReadBeyond? <==> n > size - old(position)
      ensures r.ReadNull? <==> n == 0 && old(position) == capacity
      ensures r.ReadOk? ==> position == old(position) + n && r.bytes == Data()[old(position)..position]
      ensures !r.ReadOk? ==> position == old(position)
    {
      if n > size - position {
        return ReadBeyond;
      }
      NullAtCapacity();
      if cur == null {
        return ReadNull;
      }
      MemLength();
      CurIsBlockOfPosition();
      var out := ReadBlocks(n);
      r := ReadOk(out);
    }

    /** The walk of `setPosition` from the first block. */
    method Seek(target: nat)
      requires Chain() && target <= Times(|nodes|, baseSize)
      modifies this`position, this`cur, this`at
      ensures CurOk() && position == target
    {
      var val := target;
      position, cur, at := val, root, 0;
      while val > cur.ptr.Length
        invariant 0 <= val && at < |nodes| && cur == nodes[at] && position == target
        invariant target == Times(at, baseSize) + val
        decreases val
      {
        TimesAdd(at, 1, baseSize);
        BlockInRange(at + 1, |nodes|, baseSize, val - baseSize);
        val := val - cur.ptr.Length;
        Advance();
      }
      TimesAdd(at, 1, baseSize);
      if val == cur.ptr.Length {
        Advance();
      }
    }

    /** `setPosition`: refused beyond the capacity; past the size it lengthens the data by what the
        blocks happen to hold there. */
    method SetPosition(val: nat) returns (ok: bool)
      requires Valid()
      modifies this`position, this`cur, this`at, this`size
      ensures Valid() && blocks == old(blocks)
      ensures ok <==> val <= capacity
      ensures ok ==> position == val && old(Data()) <= Data()
      ensures ok ==> size == if val > old(size) then val else old(size)
      ensures !ok ==> position == old(position) && Data() == old(Data())
    {
      MemLength();
      if val > capacity {
        return false;
      }
      Seek(val);
      if position > size {
        size := position;
      }
      ok := true;
    }

    /** `clear`: empty again, with the first block only. */
    method Clear()
      requires Valid()
      modifies this, root
      ensures Valid() && position == 0 && Data() == [] && capacity == baseSize
      ensures nodes == old(nodes[..1]) && blocks == old(blocks[..1])
    {
      position, size, capacity, cur := 0, 0, baseSize, root;
      root.next := null;
      nodes, blocks, at := nodes[..1], blocks[..1], 0;
      assert Times(1, baseSize) == baseSize;
      assert Chain() && Backed();
    }
  
    // ------------------------------------------------------------ scatter/gather views

    lemma {:induction false} RoomBehind(len: nat)
      requires Valid() && len <= capacity - position
      ensures 0 <= Offset() < baseSize && Times(at, baseSize) + Offset() + len <= Times(|nodes|, baseSize)
      ensures len > 0 ==> at < |nodes| && position % baseSize == Offset()
    {
      if len > 0 {
        CurIsBlockOfPosition();
      }
    }

    /** The walk of `getReadBuffers` and `getWriteBuffers` from `npos` in block number `first` on. */
    method CollectFrom(buffers: seq<Region>, start: Node, npos: nat, len: nat, ghost first: nat) returns (out: seq<Region>)
      requires Chain() && first < |nodes| && start == nodes[first] && npos < baseSize
      requires Times(first, baseSize) + npos + len <= Times(|nodes|, baseSize)
      ensures out == buffers + RegionsOf(nodes, baseSize, first, npos, len)
    {
      ghost var goal := buffers + RegionsOf(nodes, baseSize, first, npos, len);
      ghost var k: nat := first;
      var off: nat, left: nat, block: Node := npos, len, start;
      var ncap: nat := block.ptr.Length - off;
      out := buffers;
      while left > 0
        invariant off < baseSize && Times(k, baseSize) + off + left <= Times(|nodes|, baseSize)
        invariant left > 0 ==> k < |nodes| && block == nodes[k] && ncap == baseSize - off
        invariant out + RegionsOf(nodes, baseSize, k, off, left) == goal
      {
        var n := if ncap >= left then left else ncap;
        out := out + [Region(block.ptr, off, n)];
        if ncap >= left {
          left := 0;
        } else {
          left := left - n;
          BlockInRange(k + 1, |nodes|, baseSize, left);
          assert nodes[k].next == nodes[k + 1];
          block := block.next;
          k, off, ncap := k + 1, 0, block.ptr.Length;
        }
      }
    }

    /** The walk from the cursor, which itself stays. */
    method Collect(buffers: seq<Region>, len: nat) returns (out: seq<Region>)
      requires Valid() && 0 < len <= capacity - position
      ensures 0 <= Offset() < baseSize && Times(at, baseSize) + Offset() + len <= Times(|nodes|, baseSize)
      ensures out == buffers + RegionsOf(nodes, baseSize, at, Offset(), len)
    {
      RoomBehind(len);
      out := CollectFrom(buffers, cur, position % baseSize, len, at);
    }

    /** The regions of `getReadBuffers` hold the next `len` bytes. */
    lemma {:induction false} ReadRegions(len: nat)
      requires Valid() && len <= size - position
      ensures 0 <= Offset() < baseSize && Times(at, baseSize) + Offset() + len <= Times(|nodes|, baseSize)
      ensures InBounds(RegionsOf(nodes, baseSize, at, Offset(), len))
      ensures Gather(RegionsOf(nodes, baseSize, at, Offset(), len)) == Data()[position..position + len]
    {
      RoomBehind(len);
      MemLength();
      GatherIsReadFrom(nodes, blocks, baseSize, at, Offset(), len);
      ReadFromIsSlice(blocks, baseSize, at, Offset(), len, position);
      SliceOfPrefix(Mem(), size, position, len);
    }

    /** `getReadBuffers`: regions that together hold the next bytes, at most `len` of them. */
    method GetReadBuffers(buffers: seq<Region>, len: nat) returns (n: nat, out: seq<Region>)
      requires Valid()
      ensures n == if len > size - position then size - position else len
      ensures buffers <= out && InBounds(out[|buffers|..])
      ensures Gather(out[|buffers|..]) == Data()[position..position + n]
    {
      n := if len > size - position then size - position else len;
      if n == 0 {
        return n, buffers;
      }
      out := Collect(buffers, n);
      ReadRegions(n);
      AfterPrefix(buffers, RegionsOf(nodes, baseSize, at, Offset(), n));
    }

    /** Block number `p / baseSize`, if there is one. */
    method Walk(p: nat) returns (block: Node?)
      requires Valid()
      ensures p < capacity ==> p / baseSize < |nodes| && block == nodes[p / baseSize]
      ensures p < capacity ==> p == Times(p / baseSize, baseSize) + p % baseSize
      ensures p >= capacity ==> block == null
    {
      var count := p / baseSize;
      TimesIsProduct(count, baseSize);
      block := root;
      ghost var k := 0;
      while count > 0 && block != null
        invariant count >= 0 && k + count == p / baseSize && 0 <= k <= |nodes| && block == if k < |nodes| then nodes[k] else null
        decreases count
      {
        assert nodes[k].next == if k + 1 < |nodes| then nodes[k + 1] else null;
        block := block.next;
        count, k := count - 1, k + 1;
      }
      InWhichBlock(p, |nodes|, baseSize);
    }

    /** The regions from any place on hold the bytes of the memory there. */
    lemma {:induction false} RegionsHold(k: nat, off: nat, len: nat)
      requires Valid() && off < baseSize && Times(k, baseSize) + off + len <= Times(|nodes|, baseSize)
      ensures var p := Times(k, baseSize) + off;
        && InBounds(RegionsOf(nodes, baseSize, k, off, len))
        && p + len <= |Mem()|
        && Gather(RegionsOf(nodes, baseSize, k, off, len)) == Mem()[p..p + len]
    {
      MemLength();
      GatherIsReadFrom(nodes, blocks, baseSize, k, off, len);
      ReadFromIsSlice(blocks, baseSize, k, off, len, Times(k, baseSize) + off);
    }

    method BuffersAt(buffers: seq<Region>, n: nat, p: nat) returns (out: seq<Region>)
      requires Valid() && n > 0 && p + n <= capacity
      ensures buffers <= out && InBounds(out[|buffers|..])
      ensures p + n <= |Mem()| && Gather(out[|buffers|..]) == Mem()[p..p + n]
    {
      var block := Walk(p);
      ghost var k, off := p / baseSize, p % baseSize;
      out := CollectFrom(buffers, block, p % baseSize, n, k);
      RegionsHold(k, off, n);
      AfterPrefix(buffers, RegionsOf(nodes, baseSize, k, off, n));
    }

    /** `getReadBuffers` with a position `p`: regions for the bytes of the memory from `p` on. How many is
        bounded by what is left behind the cursor, not behind `p`, so they are bytes of the data exactly
        when they end within the size, and there is no block for them when they end past the capacity. */
    method GetReadBuffersAt(buffers: seq<Region>, len: nat, p: nat) returns (r: BuffersResult)
      requires Valid()
      ensures var n := if len > size - position then size - position else len;
        && (r.BuffersNull? <==> n > 0 && p + n > capacity)
        && (r.Buffers? ==> r.count == n && buffers <= r.regions && InBounds(r.regions[|buffers|..]))
        && (r.Buffers? && n > 0 ==> p + n <= |Mem()| && Gather(r.regions[|buffers|..]) == Mem()[p..p + n])
        && (r.Buffers? && n > 0 && p + n <= size ==> Gather(r.regions[|buffers|..]) == Data()[p..p + n])
    {
      var n := if len > size - position then size - position else len;
      if n == 0 {
        return Buffers(0, buffers);
      }
      if p + n > capacity {
        return BuffersNull;
      }
      var out := BuffersAt(buffers, n, p);
      r := Buffers(n, out);
      if p + n <= size {
        MemLength();
        SliceOfPrefix(Mem(), size, p, n);
      }
    }

    // ------------------------------------------------------------ reading at a given position

    /** Where the const `read` starts: at the offset of `p`, but in the block of the cursor. */
    ghost function StartOf(p: nat): nat
      requires baseSize > 0
      reads this`at
    {
      Times(at, baseSize) + p % baseSize
    }

    /** That is `p` exactly when `p` lies in the block of the cursor. */
    lemma {:induction false} StartsAtOwn(p: nat)
      requires Valid() && position < capacity
      ensures StartOf(p) == position - position % baseSize + p % baseSize
      ensures StartOf(p) == p <==> p / baseSize == position / baseSize
    {
      CurIsBlockOfPosition();
      DivMod(at, baseSize, Offset());
      DivMod(at, baseSize, p % baseSize);
      TimesIsProduct(at, baseSize);
    }

    /** `p` is `off` bytes into the block number `k`. */
    ghost predicate Reaches(block: Node, k: nat, off: nat, p: nat)
      reads this`nodes
    {
      k < |nodes| && block == nodes[k] && off < baseSize && p == Times(k, baseSize) + off
    }

    /** memcpy out of a block, behind what was read from `start` on. */
    method CopyOut(out: seq<Byte>, block: Node, off: nat, n: nat, ghost k: nat, ghost start: nat, ghost p: nat)
      returns (more: seq<Byte>)
      requires Chain() && Backed() && Reaches(block, k, off, p) && off + n <= baseSize
      requires start <= p <= |Mem()| && out == Mem()[start..p]
      ensures p + n <= |Mem()| && more == Mem()[start..p + n]
    {
      MemLength();
      FlatSlice(blocks, baseSize, k, off, n);
      var chunk := block.ptr[off..off + n];
      SliceMore(Mem(), start, p - start, n);
      more := out + chunk;
    }

    /** The next block after one that was read to its end, if there is one. */
    method NextBlock(block: Node, ghost k: nat, ghost off: nat, ghost p: nat) returns (next: Node?)
      requires Chain() && Reaches(block, k, off, p)
      ensures next != null ==> Reaches(next, k + 1, 0, p + (baseSize - off))
      ensures next == null ==> p + (baseSize - off) == Times(|nodes|, baseSize)
    {
      assert nodes[k].next == if k + 1 < |nodes| then nodes[k + 1] else null;
      next := block.next;
    }

    /** The loop of the const `read`. */
    method ReadOn(n: nat, npos: nat, first: Node, ghost number: nat, ghost start: nat) returns (r: ReadResult)
      requires Chain() && Backed() && Reaches(first, number, npos, start) && start <= |Mem()| == Times(|nodes|, baseSize)
      ensures if start + n > |Mem()| then r == ReadNull else r == ReadOk(Mem()[start..start + n])
    {
      ghost var k: nat, p: nat := number, start;
      var block: Node, off: nat, left: nat := first, npos, n;
      var out := [];
      while left > 0
        invariant left > 0 ==> Reaches(block, k, off, p)
        invariant start <= p <= |Mem()| && left <= n && p == start + n - left
        invariant out == Mem()[start..p]
        decreases left
      {
        var ncap: nat := block.ptr.Length - off;
        if ncap >= left {
          out := CopyOut(out, block, off, left, k, start, p);
          p, left := p + left, 0;
        } else {
          out := CopyOut(out, block, off, ncap, k, start, p);
          var next := NextBlock(block, k, off, p);
          if next == null {
            return ReadNull;
          }
          p, left := p + ncap, left - ncap;
          block, off, k := next, 0, k + 1;
        }
      }
      r := ReadOk(out);
    }

    /** The const `read` with a position: refused beyond the size in unsigned arithmetic; without a current
        block, or running past the last one, it looks into a null block; otherwise it returns the bytes
        at the offset of `p` in the block of the cursor, which are those at `p` exactly when `p` lies in the block of the cursor. */
    method ReadAt(n: nat, p: nat) returns (r: ReadResult)
      requires Valid()
      ensures var left := if p <= size then size - p else size - p + 0x1_0000_0000_0000_0000;
        var start := position - position % baseSize + p % baseSize;
        && (r.ReadBeyond? <==> n > left)
        && (r.ReadNull? <==> n <= left && (position == capacity || start + n > capacity))
        && (r.ReadOk? ==> 0 <= start && start + n <= |Mem()| && r.bytes == Mem()[start..start + n])
      ensures p + n <= size && position < capacity && p / baseSize == position / baseSize ==>
                r == ReadOk(Data()[p..p + n])
    {
      if n > Behind(size, p) {
        return ReadBeyond;
      }
      NullAtCapacity();
      if cur == null {
        return ReadNull;
      }
      MemLength();
      StartsAtOwn(p);
      TimesMono(at + 1, |nodes|, baseSize);
      r := ReadOn(n, p % baseSize, cur, at, StartOf(p));
      if p + n <= size {
        SliceOfPrefix(Mem(), size, p, n);
      }
    }

    /** `toString`: all that is left to read; the cursor stays. */
    method ToString() returns (s: seq<Byte>)
      requires Valid()
      ensures s == Data()[position..]
    {
      if size == position {
        return [];
      }
      var r := ReadAt(size - position, position);
      NullAtCapacity();
      CurIsBlockOfPosition();
      s := r.bytes;
    }

    /** `getWriteBuffers`: disjoint regions for `len` bytes behind the position. */
    method GetWriteBuffers(buffers: seq<Region>, len: nat) returns (out: seq<Region>)
      requires Valid()
      modifies this`nodes, this`blocks, this`capacity, this`cur, nodes
      ensures Valid() && Data() == old(Data()) && old(nodes) <= nodes && old(Mem()) <= Mem()
      ensures len <= capacity - position && 0 <= Offset() < baseSize && old(capacity) <= capacity
      ensures capacity == old(capacity) || capacity - position < len + baseSize
      ensures Times(at, baseSize) + Offset() + len <= Times(|nodes|, baseSize)
      ensures out == buffers + RegionsOf(nodes, baseSize, at, Offset(), len)
      ensures forall i :: old(|nodes|) <= i < |nodes| ==> fresh(nodes[i]) && fresh(nodes[i].ptr)
    {
      if len == 0 {
        RoomBehind(0);
        return buffers;
      }
      AddCapacity(len);
      out := Collect(buffers, len);
    }

    /** The regions of `getWriteBuffers` are disjoint, within their blocks, and measure `len`. */
    lemma {:induction false} WriteRegions(rs: seq<Region>, len: nat)
      requires Valid() && 0 <= Offset() < baseSize
      requires Times(at, baseSize) + Offset() + len <= Times(|nodes|, baseSize)
      requires rs == RegionsOf(nodes, baseSize, at, Offset(), len)
      ensures Apart(rs, nodes, baseSize, at) && Total(rs) == len
    {
      RegionsOfApart(rs, nodes, baseSize, at, Offset(), len);
    }

    /** What filling the regions with `data` makes of the blocks is what writing makes of them. */
    lemma {:induction false} PlanFill(rs: seq<Region>, data: seq<Byte>, len: nat, newSize: nat)
      returns (goal: seq<seq<Byte>>)
      requires Valid() && 0 < |data| <= len <= capacity - position && 0 <= Offset() < baseSize
      requires Times(at, baseSize) + Offset() + len <= Times(|nodes|, baseSize)
      requires rs == RegionsOf(nodes, baseSize, at, Offset(), len)
      requires newSize == if position + |data| > size then position + |data| else size
      ensures |goal| == |nodes|
      ensures forall j :: 0 <= j < |nodes| ==> goal[j] == Filled(blocks[j], rs, data, at, j)
      ensures newSize <= |Flat(goal)| && Flat(goal)[..newSize] == Overwrite(Data(), position, data)
      ensures position + |data| <= |Mem()| && Flat(goal) == Overwrite(Mem(), position, data)
    {
      goal := PlanWrite(data, newSize);
      forall j | 0 <= j < |nodes| ensures |goal| == |nodes| && goal[j] == Filled(blocks[j], rs, data, at, j) {
        FillIsWriteInto(nodes, blocks, baseSize, at, Offset(), len, data, j);
      }
    }

    /** A scattering read into the regions leaves the blocks as writing would. */
    method FillRegions(rs: seq<Region>, data: seq<Byte>, ghost goal: seq<seq<Byte>>)
      requires Valid() && Apart(rs, nodes, baseSize, at)
      requires |goal| == |nodes|
      requires forall j :: 0 <= j < |nodes| ==> goal[j] == Filled(blocks[j], rs, data, at, j)
      modifies this`blocks, Arrays(nodes)
      ensures Valid() && blocks == goal
    {
      ScatterIntoBlocks(rs, data, nodes, blocks, baseSize, at);
      blocks := goal;
      assert Chain() && Backed();
    }

    /** setPosition(getPosition() + n). */
    method MoveOn(n: nat, ghost newSize: nat)
      requires Valid() && position + n <= capacity
      requires newSize == if position + n > size then position + n else size
      modifies this`position, this`cur, this`at, this`size
      ensures Valid() && position == old(position) + n && newSize <= |Flat(old(blocks))|
      ensures Data() == Flat(old(blocks))[..newSize] && blocks == old(blocks)
    {
      var ok := SetPosition(position + n);
      MemLength();
    }

    method FillThenMove(rs: seq<Region>, data: seq<Byte>, ghost goal: seq<seq<Byte>>, ghost newSize: nat)
      requires Valid() && Apart(rs, nodes, baseSize, at)
      requires |goal| == |nodes|
      requires forall j :: 0 <= j < |nodes| ==> goal[j] == Filled(blocks[j], rs, data, at, j)
      requires position + |data| <= capacity
      requires newSize == if position + |data| > size then position + |data| else size
      modifies this`blocks, this`position, this`cur, this`at, this`size, Arrays(nodes)
      ensures Valid() && position == old(position) + |data| && newSize <= |Flat(goal)|
      ensures Data() == Flat(goal)[..newSize] && blocks == goal
    {
      FillRegions(rs, data, goal);
      MoveOn(|data|, newSize);
    }

    /** Receives `data` into the regions and moves the position. */
    method FillAndMove(rs: seq<Region>, data: seq<Byte>, ghost len: nat)
      requires Valid() && 0 < |data| <= len <= capacity - position && 0 <= Offset() < baseSize
      requires Times(at, baseSize) + Offset() + len <= Times(|nodes|, baseSize)
      requires rs == RegionsOf(nodes, baseSize, at, Offset(), len)
      modifies this`blocks, this`position, this`cur, this`at, this`size, Arrays(nodes)
      ensures Valid() && position == old(position) + |data|
      ensures Data() == Overwrite(old(Data()), old(position), data)
      ensures position <= |old(Mem())| && Mem() == Overwrite(old(Mem()), old(position), data)
    {
      ghost var newSize := if position + |data| > size then position + |data| else size;
      ghost var goal := PlanFill(rs, data, len, newSize);
      WriteRegions(rs, len);
      FillThenMove(rs, data, goal, newSize);
    }

    /** Receiving into `getWriteBuffers(len)` and then moving the position is `write` of what came. */
    method Receive(len: nat, data: seq<Byte>)
      requires Valid() && |data| <= len
      modifies this, nodes, Arrays(nodes)
      ensures Valid() && position == old(position) + |data|
      ensures Data() == Overwrite(old(Data()), old(position), data)
      ensures Rewritten(old(Mem()), Mem(), old(position), data)
      ensures Extended() && old(capacity) <= capacity && old(position) + len <= capacity
      ensures capacity == old(capacity) || capacity < old(position) + len + baseSize
    {
      ghost var mem := Mem();
      var rs := GetWriteBuffers([], len);
      ghost var grown := Mem();
      MemLength();
      OverwriteRewrites(mem, grown, position, data);
      if |data| > 0 {
        FillAndMove(rs, data, len);
      } else {
        OverwriteNothing(grown, position);
        OverwriteNothing(Data(), position);
      }
    }
  }
  method TwoBytes(x: Byte, y: Byte) returns (b: ByteArray)
    ensures fresh(b) && fresh(b.nodes) && fresh(Arrays(b.nodes)) && b.Valid() && b.baseSize == 1
    ensures b.Data() == [x, y] && b.position == 0
  {
    b := new ByteArray(1);
    b.Write([x, y]);
    ghost var d := b.Data();
    assert d == [x, y];
    var ok := b.SetPosition(0);
    assert d <= b.Data();
  }

  /** Two blocks of one byte, the cursor in the first: the const `read` at 1 returns the byte at 0. */
  method ReadAtLooksElsewhere(x: Byte, y: Byte) returns (b: ByteArray, r: ReadResult)
    ensures fresh(b) && b.Valid() && b.Data() == [x, y] && b.position == 0
    ensures r == ReadOk([x])
  {
    b := TwoBytes(x, y);
    r := b.ReadAt(1, 1);
    b.CurIsBlockOfPosition();
    b.MemLength();
    assert b.StartOf(1) == 0;
    SliceOfPrefix(b.Mem(), 2, 0, 1);
  }
}
