/** The typed reads and writes of the byte buffer, by way of its raw `read` and `write`. */
module TypedBuffer {
  import opened Blocks
  import opened Bits
  import opened ByteArrays
  import opened Codec

  /** tmp[i++] = x. */
  method Append(tmp: array<Byte>, i: nat, x: Byte)
    requires i < tmp.Length
    modifies tmp
    ensures tmp[..i + 1] == old(tmp[..i]) + [x]
  {
    tmp[i] := x;
  }

  lemma {:induction false} VarintMore(bs: seq<Byte>, v: nat)
    requires v >= 0x80
    ensures bs + VarintBytes(v) == bs + [v % 0x80 + 0x80] + VarintBytes(v / 0x80)
    ensures |VarintBytes(v)| == |VarintBytes(v / 0x80)| + 1
  {
  }

  /** The loop of `writeUint32/64`, which fills a 5 (10) byte buffer. */
  method VarintLoop(bits: nat, value: nat) returns (bs: seq<Byte>)
    requires (bits == 32 || bits == 64) && value < Pow2(bits)
    ensures bs == VarintBytes(value)
  {
    var n := if bits == 32 then 5 else 10;
    var tmp := new Byte[n];
    VarintFitsBuffer(value, bits);
    ghost var goal := VarintBytes(value);
    var v: nat, i: nat := value, 0;
    while v >= 0x80
      invariant i + |VarintBytes(v)| == |goal| <= n == tmp.Length
      invariant tmp[..i] + VarintBytes(v) == goal
    {
      ghost var rest := VarintBytes(v / 0x80);
      VarintMore(tmp[..i], v);
      Append(tmp, i, v % 0x80 + 0x80);
      i, v := i + 1, v / 0x80;
      assert tmp[..i] + rest == goal;
    }
    Append(tmp, i, v);
    bs := tmp[..i + 1];
  }

  /** The raw `write`. */
  method Put(b: ByteArray, x: seq<Byte>)
    requires b.Valid()
    modifies b, b.nodes, Arrays(b.nodes)
    ensures b.Valid() && b.Extended()
    ensures Wrote(old(b.Data()), old(b.position), b.Data(), b.position, x)
  {
    OverwriteWrote(b.Data(), b.position, x);
    b.Write(x);
  }

  method WriteVarint(b: ByteArray, bits: nat, value: nat)
    requires b.Valid() && (bits == 32 || bits == 64) && value < Pow2(bits)
    modifies b, b.nodes, Arrays(b.nodes)
    ensures b.Valid() && b.Extended()
    ensures Wrote(old(b.Data()), old(b.position), b.Data(), b.position, VarintBytes(value))
  {
    var bs := VarintLoop(bits, value);
    Put(b, bs);
  }

  method WriteFixed(b: ByteArray, order: Order, host: Order, w: nat, u: nat)
    requires b.Valid()
    modifies b, b.nodes, Arrays(b.nodes)
    ensures b.Valid() && b.Extended()
    ensures Wrote(old(b.Data()), old(b.position), b.Data(), b.position, FixedBytes(order, host, w, u))
  {
    var value := u;
    if w > 1 && order != host {
      value := ByteSwap(w, value);
    }
    Put(b, InMemory(host, w, value));
  }

  method WritePrefix(b: ByteArray, order: Order, host: Order, x: Prefix, n: nat)
    requires b.Valid() && n < Pow2(PrefixBits(x))
    modifies b, b.nodes, Arrays(b.nodes)
    ensures b.Valid() && b.Extended()
    ensures Wrote(old(b.Data()), old(b.position), b.Data(), b.position, PrefixBytes(order, host, x, n))
  {
    if x.Vint? {
      WriteVarint(b, 64, n);
    } else {
      WriteFixed(b, order, host, PrefixBits(x) / 8, n);
    }
  }

  /** `writeStringF16/F32/F64/Vint`: the length, cut to its field, and the bytes. */
  method WriteText(b: ByteArray, order: Order, host: Order, x: Prefix, s: seq<Byte>)
    requires b.Valid()
    modifies b, b.nodes, Arrays(b.nodes)
    ensures b.Valid() && b.Extended()
    ensures Wrote(old(b.Data()), old(b.position), b.Data(), b.position, Encode(order, host, Text(x), Str(s)))
  {
    WriteParts(b, order, host, x, Wrap(PrefixBits(x), |s|), s);
  }

  method WriteParts(b: ByteArray, order: Order, host: Order, x: Prefix, n: nat, s: seq<Byte>)
    requires b.Valid() && n < Pow2(PrefixBits(x))
    modifies b, b.nodes, Arrays(b.nodes)
    ensures b.Valid() && b.Extended()
    ensures Wrote(old(b.Data()), old(b.position), b.Data(), b.position, PrefixBytes(order, host, x, n) + s)
  {
    ghost var d, p, bs := b.Data(), b.position, PrefixBytes(order, host, x, n);
    WritePrefix(b, order, host, x, n);
    ghost var e, q := b.Data(), b.position;
    Put(b, s);
    WroteOn(d, p, e, q, b.Data(), b.position, bs, s);
  }

  /** Every typed write puts down the encoding of its value. */
  method WriteValue(b: ByteArray, order: Order, host: Order, k: Kind, v: Value)
    requires b.Valid() && HasType(k, v)
    modifies b, b.nodes, Arrays(b.nodes)
    ensures b.Valid() && b.Extended()
    ensures Wrote(old(b.Data()), old(b.position), b.Data(), b.position, Encode(order, host, k, v))
  {
    match k {
      case Fixed(w, _) => WriteFixed(b, order, host, w, Wrap(8 * w, v.n));
      case Varint(bits) => WriteVarint(b, bits, v.n);
      case ZigZag(bits) => WriteVarint(b, bits, EncodeZigZag(bits, v.n));
      case Text(x) => WriteText(b, order, host, x, v.s);
    }
  }

  // ------------------------------------------------------------ reading

  method ToWord(order: Order, host: Order, bs: seq<Byte>) returns (u: nat)
    requires bs != []
    ensures u == FixedWord(order, host, bs)
  {
    u := FromMemory(host, bs);
    if |bs| > 1 && order != host {
      u := ByteSwap(|bs|, u);
    }
  }

  lemma {:induction false} GotWord(order: Order, host: Order, w: nat, d: seq<Byte>, p: nat, bs: seq<Byte>)
    requires p + w <= |d| && bs == d[p..p + w]
    ensures ReadFixed(order, host, w, d, p) == Got(FixedWord(order, host, bs), p + w)
  {
  }

  method ReadWord(b: ByteArray, order: Order, host: Order, w: nat) returns (r: Parsed<nat>)
    requires b.Valid() && w > 0
    modifies b`position, b`cur, b`at
    ensures b.Valid() && b.Data() == old(b.Data())
    ensures r == ReadFixed(order, host, w, b.Data(), old(b.position)) && b.position == r.next
  {
    var raw := b.Read(w);
    if !raw.ReadOk? {
      return OutOfRange(b.position);
    }
    var u := ToWord(order, host, raw.bytes);
    r := Got(u, b.position);
    GotWord(order, host, w, b.Data(), b.position - w, raw.bytes);
  }

  /** readFuint8. */
  method ReadByte(b: ByteArray) returns (r: Parsed<Byte>)
    requires b.Valid()
    modifies b`position, b`cur, b`at
    ensures b.Valid() && b.Data() == old(b.Data()) && b.position == r.next
    ensures r == if old(b.position) < b.size then Got(b.Data()[old(b.position)], old(b.position) + 1)
                 else OutOfRange(old(b.position))
  {
    var raw := b.Read(1);
    if !raw.ReadOk? {
      return OutOfRange(b.position);
    }
    r := Got(raw.bytes[0], b.position);
  }

  /** The loop of `readUint32/64`. */
  method ReadVarintLoop(b: ByteArray, bits: nat) returns (r: Parsed<nat>)
    requires b.Valid()
    modifies b`position, b`cur, b`at
    ensures b.Valid() && b.Data() == old(b.Data())
    ensures r == ReadVarint(bits, b.Data(), old(b.position), 0, 0) && b.position == r.next
  {
    ghost var d := b.Data();
    ghost var goal := ReadVarint(bits, d, b.position, 0, 0);
    var result, i, g := 0, 0, 0;
    while i < bits
      invariant i == 7 * g && result >= 0 && b.Valid() && b.Data() == d
      invariant ReadVarint(bits, d, b.position, g, result) == goal
      decreases bits - i
    {
      var raw := ReadByte(b);
      if !raw.Got? {
        return OutOfRange(b.position);
      }
      var x := raw.value;
      result := Or(bits, result, Wrap(bits, (x % 0x80) * Pow2(i)));
      if x < 0x80 {
        return Got(result, b.position);
      }
      i, g := i + 7, g + 1;
    }
    r := Got(result, b.position);
  }

  method ReadLength(b: ByteArray, order: Order, host: Order, x: Prefix) returns (r: Parsed<nat>)
    requires b.Valid()
    modifies b`position, b`cur, b`at
    ensures b.Valid() && b.Data() == old(b.Data())
    ensures r == ReadPrefix(order, host, x, b.Data(), old(b.position)) && b.position == r.next
  {
    if x.Vint? {
      r := ReadVarintLoop(b, 64);
    } else {
      r := ReadWord(b, order, host, PrefixBits(x) / 8);
    }
  }

  /** `read(&buff[0], n)`. */
  method ReadBytes(b: ByteArray, n: nat) returns (r: Parsed<Value>)
    requires b.Valid()
    modifies b`position, b`cur, b`at
    ensures b.Valid() && b.Data() == old(b.Data())
    ensures r == ReadRaw(b.Data(), b.capacity, old(b.position), n) && b.position == r.next
  {
    var raw := b.Read(n);
    r := match raw
      case ReadOk(s) => Got(Str(s), b.position)
      case ReadBeyond => OutOfRange(b.position)
      case ReadNull => NullBlock(b.position);
  }

  method ReadText(b: ByteArray, order: Order, host: Order, x: Prefix) returns (r: Parsed<Value>)
    requires b.Valid()
    modifies b`position, b`cur, b`at
    ensures b.Valid() && b.Data() == old(b.Data())
    ensures r == DecodeText(order, host, x, b.Data(), b.capacity, old(b.position)) && b.position == r.next
  {
    var len := ReadLength(b, order, host, x);
    if len.IsFailure() {
      return len.PropagateFailure();
    }
    r := ReadBytes(b, len.value);
  }

  method ReadFixedInt(b: ByteArray, order: Order, host: Order, w: nat, signed: bool) returns (r: Parsed<Value>)
    requires b.Valid() && w > 0
    modifies b`position, b`cur, b`at
    ensures b.Valid() && b.Data() == old(b.Data())
    ensures r == DecodeFixed(order, host, w, signed, b.Data(), old(b.position)) && b.position == r.next
  {
    ghost var p := b.position;
    var u := ReadWord(b, order, host, w);
    if u.IsFailure() {
      return u.PropagateFailure();
    }
    FixedWordIsWord(order, host, b.Data()[p..p + w]);
    r := Got(Num(if signed then AsSigned(8 * w, u.value) else u.value), u.next);
  }

  method ReadVarintInt(b: ByteArray, bits: nat, zigzag: bool) returns (r: Parsed<Value>)
    requires b.Valid() && bits > 0
    modifies b`position, b`cur, b`at
    ensures b.Valid() && b.Data() == old(b.Data())
    ensures r == (if zigzag then DecodeZigZagInt(bits, b.Data(), old(b.position))
                  else DecodeVarint(bits, b.Data(), old(b.position)))
    ensures b.position == r.next
  {
    ReadVarintStops(bits, b.Data(), b.position, 0, 0);
    var u := ReadVarintLoop(b, bits);
    if u.IsFailure() {
      return u.PropagateFailure();
    }
    r := Got(Num(if zigzag then DecodeZigZag(bits, u.value) else u.value), u.next);
  }

  /** Every typed read returns what its decoder makes of the data at the position. */
  method ReadValue(b: ByteArray, order: Order, host: Order, k: Kind) returns (r: Parsed<Value>)
    requires b.Valid() && GoodKind(k)
    modifies b`position, b`cur, b`at
    ensures b.Valid() && b.Data() == old(b.Data())
    ensures r == Decode(order, host, k, b.Data(), b.capacity, old(b.position)) && b.position == r.next
  {
    match k {
      case Fixed(w, signed) => r := ReadFixedInt(b, order, host, w, signed);
      case Varint(bits) => r := ReadVarintInt(b, bits, false);
      case ZigZag(bits) => r := ReadVarintInt(b, bits, true);
      case Text(x) => r := ReadText(b, order, host, x);
    }
  }

  // ------------------------------------------------------------ lists

  /** Writes the items one after the other. */
  method WriteAll(b: ByteArray, order: Order, host: Order, xs: seq<Item>)
    requires b.Valid() && AllTyped(xs)
    modifies b, b.nodes, Arrays(b.nodes)
    ensures b.Valid() && b.Extended()
    ensures Wrote(old(b.Data()), old(b.position), b.Data(), b.position, EncodeAll(order, host, xs))
    decreases |xs|
  {
    ghost var d, p := b.Data(), b.position;
    if xs == [] {
      WroteNothing(d, p);
    } else {
      var ys, x := xs[..|xs| - 1], xs[|xs| - 1];
      assert Typed(x);
      WriteAll(b, order, host, ys);
      ghost var e, q := b.Data(), b.position;
      WriteValue(b, order, host, x.kind, x.value);
      WroteOn(d, p, e, q, b.Data(), b.position, EncodeAll(order, host, ys), Encode(order, host, x.kind, x.value));
    }
  }

  /** Reads values of the given kinds until one fails. */
  method ReadAll(b: ByteArray, order: Order, host: Order, ks: seq<Kind>) returns (r: Parsed<seq<Value>>)
    requires b.Valid() && AllGood(ks)
    modifies b`position, b`cur, b`at
    ensures b.Valid() && b.Data() == old(b.Data())
    ensures r == DecodeAll(order, host, ks, b.Data(), b.capacity, old(b.position))
    ensures b.position == r.next
    decreases |ks|
  {
    if ks == [] {
      return Got([], b.position);
    }
    var first := ReadAll(b, order, host, ks[..|ks| - 1]);
    if first.IsFailure() {
      return first;
    }
    var v := ReadValue(b, order, host, ks[|ks| - 1]);
    r := if v.IsFailure() then v.PropagateFailure() else Got(first.value + [v.value], v.next);
  }

  lemma {:induction false} WroteHolds(d: seq<Byte>, p: nat, e: seq<Byte>, q: nat, x: seq<Byte>)
    requires Wrote(d, p, e, q, x)
    ensures HoldsAt(e, p, x)
  {
  }

  /** Writing any list of typed values, moving the position back and reading with the same kinds returns
      the same list and ends at the writer's position if and only if all its values return, for every
      block size, either byte order and any host order of writer and reader. */
  method WriteThenRead(b: ByteArray, order: Order, writer: Order, reader: Order, xs: seq<Item>)
    returns (r: Parsed<seq<Value>>)
    requires b.Valid() && AllTyped(xs)
    modifies b, b.nodes, Arrays(b.nodes)
    ensures b.Valid() && b.position == r.next
    ensures b.Data() == Overwrite(old(b.Data()), old(b.position), EncodeAll(order, writer, xs))
    ensures GivesBack(r, Values(xs)) <==> AllReturn(order, writer, xs, old(b.position), b.capacity)
    ensures GivesBack(r, Values(xs)) ==> b.position == old(b.position) + |EncodeAll(order, writer, xs)|
  {
    ghost var d, start := b.Data(), b.position;
    var back := b.position;
    WriteAll(b, order, writer, xs);
    WroteHolds(d, start, b.Data(), b.position, EncodeAll(order, writer, xs));
    WroteIsOverwrite(d, start, b.Data(), b.position, EncodeAll(order, writer, xs));
    r := Reread(b, order, writer, reader, xs, back);
  }

  method Reread(b: ByteArray, order: Order, writer: Order, reader: Order, xs: seq<Item>, start: nat)
    returns (r: Parsed<seq<Value>>)
    requires b.Valid() && AllTyped(xs) && start <= b.size && HoldsAt(b.Data(), start, EncodeAll(order, writer, xs))
    modifies b`position, b`cur, b`at, b`size
    ensures b.Valid() && b.Data() == old(b.Data()) && b.position == r.next && b.capacity == old(b.capacity)
    ensures GivesBack(r, Values(xs)) <==> AllReturn(order, writer, xs, start, b.capacity)
    ensures GivesBack(r, Values(xs)) ==> b.position == start + |EncodeAll(order, writer, xs)|
  {
    TypedIsGood(xs);
    var ok := b.SetPosition(start);
    ListRoundTrip(order, writer, reader, xs, b.Data(), b.capacity, start);
    r := ReadAll(b, order, reader, Kinds(xs));
  }
}
