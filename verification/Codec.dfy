/** The typed encodings of the byte buffer: fixed-width integers in either byte order, varints, ZigZag
    integers and length-prefixed strings. */
module Codec {
  import opened Blocks
  import opened Bits

  datatype Order = Little | Big

  datatype Prefix = F16 | F32 | F64 | Vint

  datatype Kind =
    | Fixed(width: nat, signed: bool)   // read/writeF(u)int8 .. F(u)int64
    | Varint(bits: nat)                 // read/writeUint32, Uint64
    | ZigZag(bits: nat)                 // read/writeInt32, Int64
    | Text(prefix: Prefix)              // read/writeStringF16, F32, F64, Vint

  datatype Value = Num(n: int) | Str(s: seq<Byte>)

  predicate GoodKind(k: Kind) {
    match k
    case Fixed(w, _) => w == 1 || w == 2 || w == 4 || w == 8
    case Varint(bits) => bits == 32 || bits == 64
    case ZigZag(bits) => bits == 32 || bits == 64
    case Text(_) => true
  }

  /** The values that the C++ parameter type of the operation admits. */
  predicate HasType(k: Kind, v: Value) {
    && GoodKind(k)
    && match k
       case Fixed(w, signed) => v.Num? && if signed then Signed(8 * w, v.n) else 0 <= v.n < Pow2(8 * w)
       case Varint(bits) => v.Num? && 0 <= v.n < Pow2(bits)
       case ZigZag(bits) => v.Num? && Signed(bits, v.n)
       case Text(_) => v.Str?
  }

  function PrefixBits(p: Prefix): nat {
    match p
    case F16 => 16
    case F32 => 32
    case F64 => 64
    case Vint => 64
  }

  // ------------------------------------------------------------ fixed width

  function LittleBytes(w: nat, u: nat): (bs: seq<Byte>)
    ensures |bs| == w
  {
    if w == 0 then [] else [u % 256] + LittleBytes(w - 1, u / 256)
  }

  function FromLittle(bs: seq<Byte>): nat {
    if bs == [] then 0 else bs[0] + 256 * FromLittle(bs[1..])
  }

  function Reverse(bs: seq<Byte>): (r: seq<Byte>)
    ensures |r| == |bs|
    ensures forall i :: 0 <= i < |bs| ==> r[i] == bs[|bs| - 1 - i]
  {
    if bs == [] then [] else Reverse(bs[1..]) + [bs[0]]
  }

  lemma {:induction false} FromLittleBytes(w: nat, u: nat)
    requires u < Pow2(8 * w)
    ensures FromLittle(LittleBytes(w, u)) == u
  {
    if w > 0 {
      Pow2Add(8, 8 * (w - 1));
      assert Pow2(8) == 256;
      FromLittleBytes(w - 1, u / 256);
      assert LittleBytes(w, u)[1..] == LittleBytes(w - 1, u / 256);
    }
  }

  lemma {:induction false} LittleByteAt(w: nat, u: nat, i: nat)
    requires i < w
    ensures LittleBytes(w, u)[i] == (u / Pow2(8 * i)) % 256
  {
    if i > 0 {
      LittleByteAt(w - 1, u / 256, i - 1);
      Pow2Add(8, 8 * (i - 1));
      assert Pow2(8) == 256;
      DivideTwice(u, 256, Pow2(8 * (i - 1)));
      assert LittleBytes(w, u)[i] == LittleBytes(w - 1, u / 256)[i - 1];
    }
  }

  lemma {:induction false} DivideTwice(u: nat, a: nat, b: nat)
    requires a > 0 && b > 0
    ensures a * b > 0 && u / a / b == u / (a * b)
  {
    var q := u / a;
    var p := q / b;
    BetweenMultiples(u, a);
    BetweenMultiples(q, b);
    Nested(u, a, b, q, p);
    QuotientIs(u, a * b, p);
  }

  lemma {:induction false} BetweenMultiples(u: nat, a: nat)
    requires a > 0
    ensures (u / a) * a <= u < (u / a + 1) * a
  {
    assert u == (u / a) * a + u % a;
    assert (u / a + 1) * a == (u / a) * a + a;
  }

  lemma {:induction false} Scaled(x: nat, y: nat, a: nat)
    requires x <= y
    ensures x * a <= y * a
  {
    assert y * a == x * a + (y - x) * a;
  }

  lemma {:induction false} Nested(u: nat, a: nat, b: nat, q: nat, p: nat)
    requires a > 0 && b > 0 && q * a <= u < (q + 1) * a && p * b <= q < (p + 1) * b
    ensures a * b > 0 && p * (a * b) <= u < (p + 1) * (a * b)
  {
    Scaled(p * b, q, a);
    Scaled(q + 1, (p + 1) * b, a);
    Regrouped(p, a, b);
    Regrouped(p + 1, a, b);
  }

  lemma {:induction false} Regrouped(x: nat, a: nat, b: nat)
    ensures x * b * a == x * (a * b)
  {
  }

  lemma {:induction false} QuotientIs(u: nat, m: nat, p: nat)
    requires m > 0 && p * m <= u < (p + 1) * m
    ensures u / m == p
  {
    assert (p + 1) * m == p * m + m;
    ModuloUnique(u, m, p, u - p * m);
  }

  lemma {:induction false} LittleBytesFrom(bs: seq<Byte>)
    ensures FromLittle(bs) < Pow2(8 * |bs|)
    ensures LittleBytes(|bs|, FromLittle(bs)) == bs
  {
    if bs != [] {
      LittleBytesFrom(bs[1..]);
      Pow2Add(8, 8 * (|bs| - 1));
      assert Pow2(8) == 256;
      assert FromLittle(bs) % 256 == bs[0] && FromLittle(bs) / 256 == FromLittle(bs[1..]);
    }
  }

  lemma {:induction false} ReverseTwice(bs: seq<Byte>)
    ensures Reverse(Reverse(bs)) == bs
  {
  }

  /** How a host with byte order `host` lays a `w`-byte word out in memory, and reads it back. */
  function InMemory(host: Order, w: nat, u: nat): (bs: seq<Byte>)
    ensures |bs| == w
  {
    if host == Little then LittleBytes(w, u) else Reverse(LittleBytes(w, u))
  }

  function FromMemory(host: Order, bs: seq<Byte>): (u: nat) {
    if host == Little then FromLittle(bs) else FromLittle(Reverse(bs))
  }

  /** bswap_16/32/64: the word whose bytes stand the other way round. */
  function ByteSwap(w: nat, u: nat): (s: nat) {
    FromLittle(Reverse(LittleBytes(w, u)))
  }

  lemma {:induction false} InMemoryRoundTrip(host: Order, w: nat, u: nat)
    requires u < Pow2(8 * w)
    ensures FromMemory(host, InMemory(host, w, u)) == u
  {
    FromLittleBytes(w, u);
    ReverseTwice(LittleBytes(w, u));
  }

  /** The other byte order is the swapped word in this one. */
  lemma {:induction false} SwapIsOtherOrder(host: Order, w: nat, u: nat)
    requires u < Pow2(8 * w)
    ensures ByteSwap(w, u) < Pow2(8 * w)
    ensures InMemory(host, w, ByteSwap(w, u)) == InMemory(if host == Little then Big else Little, w, u)
  {
    LittleBytesFrom(Reverse(LittleBytes(w, u)));
    ReverseTwice(LittleBytes(w, u));
  }

  /** The bytes `writeF...` puts down: the word is swapped when the array's order is not the host's. */
  function FixedBytes(order: Order, host: Order, w: nat, u: nat): (bs: seq<Byte>)
    ensures |bs| == w
  {
    InMemory(host, w, if w > 1 && order != host then ByteSwap(w, u) else u)
  }

  /** The word `readF...` makes of them. */
  function FixedWord(order: Order, host: Order, bs: seq<Byte>): nat {
    if |bs| == 1 || order == host then FromMemory(host, bs) else ByteSwap(|bs|, FromMemory(host, bs))
  }

  lemma {:induction false} OneByteHasNoOrder(order: Order, host: Order, u: nat)
    ensures InMemory(host, 1, u) == InMemory(order, 1, u)
  {
    var one := LittleBytes(1, u);
    assert Reverse(one) == one;
  }

  /** What is written depends on the array's byte order only, whatever the host. */
  lemma {:induction false} FixedBytesIsOrder(order: Order, host: Order, w: nat, u: nat)
    requires 0 < w && u < Pow2(8 * w)
    ensures FixedBytes(order, host, w, u) == InMemory(order, w, u)
  {
    if w == 1 {
      OneByteHasNoOrder(order, host, u);
    } else if order != host {
      SwapIsOtherOrder(host, w, u);
    }
  }

  /** Which byte of the word stands where. */
  lemma {:induction false} FixedByteAt(order: Order, host: Order, w: nat, u: nat, i: nat)
    requires i < w && u < Pow2(8 * w)
    ensures FixedBytes(order, host, w, u)[i] == (u / Pow2(8 * (if order == Little then i else w - 1 - i))) % 256
  {
    FixedBytesIsOrder(order, host, w, u);
    InMemoryAt(order, w, u, i);
    LittleByteAt(w, u, BytePlace(order, w, i));
  }

  /** The significance of the byte that stands at `i`. */
  function BytePlace(order: Order, w: nat, i: nat): (k: nat)
    requires i < w
    ensures k < w
  {
    if order == Little then i else w - 1 - i
  }

  lemma {:induction false} InMemoryAt(order: Order, w: nat, u: nat, i: nat)
    requires i < w
    ensures InMemory(order, w, u)[i] == LittleBytes(w, u)[BytePlace(order, w, i)]
  {
    PlacedAt(order, LittleBytes(w, u), i);
  }

  lemma {:induction false} PlacedAt(order: Order, bs: seq<Byte>, i: nat)
    requires i < |bs|
    ensures (if order == Little then bs else Reverse(bs))[i] == bs[BytePlace(order, |bs|, i)]
  {
  }

  lemma {:induction false} FixedRoundTrip(order: Order, writer: Order, reader: Order, w: nat, u: nat)
    requires 0 < w && u < Pow2(8 * w)
    ensures FixedWord(order, reader, FixedBytes(order, writer, w, u)) == u
  {
    FixedBytesIsOrder(order, writer, w, u);
    FixedBytesIsOrder(order, reader, w, u);
    if w > 1 && order != reader {
      SwapIsOtherOrder(reader, w, u);
      InMemoryRoundTrip(reader, w, ByteSwap(w, u));
      SwapTwice(w, u);
    } else {
      InMemoryRoundTrip(reader, w, u);
    }
  }

  lemma {:induction false} SwapTwice(w: nat, u: nat)
    requires u < Pow2(8 * w)
    ensures ByteSwap(w, ByteSwap(w, u)) == u
  {
    var bs := LittleBytes(w, u);
    LittleBytesFrom(Reverse(bs));
    ReverseTwice(bs);
    FromLittleBytes(w, u);
  }

  // ------------------------------------------------------------ byte by byte

  lemma {:induction false} Powers()
    ensures Pow2(0) == 1 && Pow2(7) == 0x80 && Pow2(8) == 0x100 && Pow2(15) == 0x8000 && Pow2(16) == 0x1_0000
    ensures Pow2(24) == 0x100_0000 && Pow2(31) == 0x8000_0000 && Pow2(32) == 0x1_0000_0000
    ensures Pow2(40) == 0x100_0000_0000 && Pow2(48) == 0x1_0000_0000_0000 && Pow2(56) == 0x100_0000_0000_0000
    ensures Pow2(63) == 0x8000_0000_0000_0000 && Pow2(64) == 0x1_0000_0000_0000_0000
  {
    assert Pow2(7) == 0x80 && Pow2(8) == 0x100;
    Pow2Add(7, 8);
    Pow2Add(8, 8);
    Pow2Add(8, 16);
    Pow2Add(15, 16);
    Pow2Add(16, 16);
    Pow2Add(8, 32);
    Pow2Add(16, 32);
    Pow2Add(24, 32);
    Pow2Add(31, 32);
    Pow2Add(32, 32);
  }

  /** What stands in memory for a word of 1, 2, 4 or 8 bytes, whatever the host. */
  lemma {:induction false} WordBytes(host: Order, u: nat)
    ensures u < 0x100 ==> FixedBytes(Little, host, 1, u) == FixedBytes(Big, host, 1, u) == [u]
    ensures u < 0x1_0000 ==>
              && FixedBytes(Little, host, 2, u) == [u % 0x100, u / 0x100]
              && FixedBytes(Big, host, 2, u) == [u / 0x100, u % 0x100]
    ensures u < 0x1_0000_0000 ==>
              && FixedBytes(Little, host, 4, u) ==
                 [u % 0x100, u / 0x100 % 0x100, u / 0x1_0000 % 0x100, u / 0x100_0000]
              && FixedBytes(Big, host, 4, u) ==
                 [u / 0x100_0000, u / 0x1_0000 % 0x100, u / 0x100 % 0x100, u % 0x100]
    ensures u < 0x1_0000_0000_0000_0000 ==>
              && FixedBytes(Little, host, 8, u) ==
                 [u % 0x100, u / 0x100 % 0x100, u / 0x1_0000 % 0x100, u / 0x100_0000 % 0x100,
                  u / 0x1_0000_0000 % 0x100, u / 0x100_0000_0000 % 0x100, u / 0x1_0000_0000_0000 % 0x100,
                  u / 0x100_0000_0000_0000]
              && FixedBytes(Big, host, 8, u) ==
                 [u / 0x100_0000_0000_0000, u / 0x1_0000_0000_0000 % 0x100, u / 0x100_0000_0000 % 0x100,
                  u / 0x1_0000_0000 % 0x100, u / 0x100_0000 % 0x100, u / 0x1_0000 % 0x100, u / 0x100 % 0x100,
                  u % 0x100]
  {
    Powers();
    if u < 0x100 { OneByte(host, u); }
    if u < 0x1_0000 { TwoBytes(host, u); }
    if u < 0x1_0000_0000 { FourBytes(host, u); }
    if u < 0x1_0000_0000_0000_0000 { EightBytes(host, u); }
  }

  /** Digit `i` of a word to the base 256. */
  ghost function Digit(u: nat, i: nat): nat {
    u / Pow2(8 * i) % 0x100
  }

  /** The digits of a word, the low one first or last. */
  ghost predicate Spells(order: Order, bs: seq<Byte>, w: nat, u: nat) {
    |bs| == w && forall i :: 0 <= i < w ==> bs[if order == Little then i else w - 1 - i] == Digit(u, i)
  }

  lemma {:induction false} FixedSpells(order: Order, host: Order, w: nat, u: nat)
    requires u < Pow2(8 * w)
    ensures Spells(order, FixedBytes(order, host, w, u), w, u)
  {
    forall i | 0 <= i < w
      ensures FixedBytes(order, host, w, u)[if order == Little then i else w - 1 - i] == Digit(u, i)
    {
      FixedByteAt(order, host, w, u, if order == Little then i else w - 1 - i);
    }
  }

  lemma {:induction false} DigitAt(order: Order, bs: seq<Byte>, w: nat, u: nat, i: nat, m: nat)
    requires Spells(order, bs, w, u) && i < w && m == Pow2(8 * i)
    ensures bs[if order == Little then i else w - 1 - i] == u / m % 0x100
  {
    assert bs[if order == Little then i else w - 1 - i] == Digit(u, i);
  }

  lemma {:induction false} OneByte(host: Order, u: nat)
    requires u < 0x100
    ensures FixedBytes(Little, host, 1, u) == FixedBytes(Big, host, 1, u) == [u]
  {
    Powers();
    FixedSpells(Little, host, 1, u);
    FixedSpells(Big, host, 1, u);
    SpellsOne(Little, u, FixedBytes(Little, host, 1, u));
    SpellsOne(Big, u, FixedBytes(Big, host, 1, u));
  }

  lemma {:induction false} SpellsOne(order: Order, u: nat, bs: seq<Byte>)
    requires u < 0x100 && Spells(order, bs, 1, u)
    ensures bs == [u]
  {
    Powers();
    DigitAt(order, bs, 1, u, 0, 1);
  }

  lemma {:induction false} TwoBytes(host: Order, u: nat)
    requires u < 0x1_0000
    ensures FixedBytes(Little, host, 2, u) == [u % 0x100, u / 0x100]
    ensures FixedBytes(Big, host, 2, u) == [u / 0x100, u % 0x100]
  {
    Powers();
    FixedSpells(Little, host, 2, u);
    FixedSpells(Big, host, 2, u);
    SpellsTwo(Little, u, FixedBytes(Little, host, 2, u));
    SpellsTwo(Big, u, FixedBytes(Big, host, 2, u));
  }

  lemma {:induction false} SpellsTwo(order: Order, u: nat, bs: seq<Byte>)
    requires u < 0x1_0000 && Spells(order, bs, 2, u)
    ensures bs == if order == Little then [u % 0x100, u / 0x100] else [u / 0x100, u % 0x100]
  {
    Powers();
    DigitAt(order, bs, 2, u, 0, 1);
    DigitAt(order, bs, 2, u, 1, 0x100);
    TwoIs(order, u, bs);
  }

  lemma {:induction false} TwoIs(order: Order, u: nat, bs: seq<Byte>)
    requires u < 0x1_0000 && |bs| == 2
    requires bs[if order == Little then 0 else 1] == u / 1 % 0x100 && bs[if order == Little then 1 else 0] == u / 0x100 % 0x100
    ensures bs == if order == Little then [u % 0x100, u / 0x100] else [u / 0x100, u % 0x100]
  {
  }

  lemma {:induction false} FourBytes(host: Order, u: nat)
    requires u < 0x1_0000_0000
    ensures FixedBytes(Little, host, 4, u) == [u % 0x100, u / 0x100 % 0x100, u / 0x1_0000 % 0x100, u / 0x100_0000]
    ensures FixedBytes(Big, host, 4, u) == [u / 0x100_0000, u / 0x1_0000 % 0x100, u / 0x100 % 0x100, u % 0x100]
  {
    Powers();
    FixedSpells(Little, host, 4, u);
    FixedSpells(Big, host, 4, u);
    SpellsFour(Little, u, FixedBytes(Little, host, 4, u));
    SpellsFour(Big, u, FixedBytes(Big, host, 4, u));
  }

  lemma {:induction false} SpellsFour(order: Order, u: nat, bs: seq<Byte>)
    requires u < 0x1_0000_0000 && Spells(order, bs, 4, u)
    ensures bs == if order == Little then [u % 0x100, u / 0x100 % 0x100, u / 0x1_0000 % 0x100, u / 0x100_0000]
                  else [u / 0x100_0000, u / 0x1_0000 % 0x100, u / 0x100 % 0x100, u % 0x100]
  {
    Powers();
    DigitAt(order, bs, 4, u, 0, 1);
    DigitAt(order, bs, 4, u, 1, 0x100);
    DigitAt(order, bs, 4, u, 2, 0x1_0000);
    DigitAt(order, bs, 4, u, 3, 0x100_0000);
    FourIs(order, u, bs);
  }

  lemma {:induction false} FourIs(order: Order, u: nat, bs: seq<Byte>)
    requires u < 0x1_0000_0000 && |bs| == 4
    requires bs[if order == Little then 0 else 3] == u / 1 % 0x100 && bs[if order == Little then 1 else 2] == u / 0x100 % 0x100
    requires bs[if order == Little then 2 else 1] == u / 0x1_0000 % 0x100
    requires bs[if order == Little then 3 else 0] == u / 0x100_0000 % 0x100
    ensures bs == if order == Little then [u % 0x100, u / 0x100 % 0x100, u / 0x1_0000 % 0x100, u / 0x100_0000]
                  else [u / 0x100_0000, u / 0x1_0000 % 0x100, u / 0x100 % 0x100, u % 0x100]
  {
  }

  lemma {:induction false} EightBytes(host: Order, u: nat)
    requires u < 0x1_0000_0000_0000_0000
    ensures FixedBytes(Little, host, 8, u) ==
              [u % 0x100, u / 0x100 % 0x100, u / 0x1_0000 % 0x100, u / 0x100_0000 % 0x100,
               u / 0x1_0000_0000 % 0x100, u / 0x100_0000_0000 % 0x100, u / 0x1_0000_0000_0000 % 0x100,
               u / 0x100_0000_0000_0000]
    ensures FixedBytes(Big, host, 8, u) ==
              [u / 0x100_0000_0000_0000, u / 0x1_0000_0000_0000 % 0x100, u / 0x100_0000_0000 % 0x100,
               u / 0x1_0000_0000 % 0x100, u / 0x100_0000 % 0x100, u / 0x1_0000 % 0x100, u / 0x100 % 0x100,
               u % 0x100]
  {
    Powers();
    FixedSpells(Little, host, 8, u);
    FixedSpells(Big, host, 8, u);
    SpellsEight(Little, u, FixedBytes(Little, host, 8, u));
    SpellsEight(Big, u, FixedBytes(Big, host, 8, u));
  }

  lemma {:induction false} SpellsEight(order: Order, u: nat, bs: seq<Byte>)
    requires u < 0x1_0000_0000_0000_0000 && Spells(order, bs, 8, u)
    ensures bs == if order == Little then
              [u % 0x100, u / 0x100 % 0x100, u / 0x1_0000 % 0x100, u / 0x100_0000 % 0x100,
               u / 0x1_0000_0000 % 0x100, u / 0x100_0000_0000 % 0x100, u / 0x1_0000_0000_0000 % 0x100,
               u / 0x100_0000_0000_0000]
            else
              [u / 0x100_0000_0000_0000, u / 0x1_0000_0000_0000 % 0x100, u / 0x100_0000_0000 % 0x100,
               u / 0x1_0000_0000 % 0x100, u / 0x100_0000 % 0x100, u / 0x1_0000 % 0x100, u / 0x100 % 0x100,
               u % 0x100]
  {
    Powers();
    DigitAt(order, bs, 8, u, 0, 1);
    DigitAt(order, bs, 8, u, 1, 0x100);
    DigitAt(order, bs, 8, u, 2, 0x1_0000);
    DigitAt(order, bs, 8, u, 3, 0x100_0000);
    DigitAt(order, bs, 8, u, 4, 0x1_0000_0000);
    DigitAt(order, bs, 8, u, 5, 0x100_0000_0000);
    DigitAt(order, bs, 8, u, 6, 0x1_0000_0000_0000);
    DigitAt(order, bs, 8, u, 7, 0x100_0000_0000_0000);
    EightIs(order, u, bs);
  }

  lemma {:induction false} EightIs(order: Order, u: nat, bs: seq<Byte>)
    requires u < 0x1_0000_0000_0000_0000 && |bs| == 8
    requires bs[if order == Little then 0 else 7] == u / 1 % 0x100 && bs[if order == Little then 1 else 6] == u / 0x100 % 0x100
    requires bs[if order == Little then 2 else 5] == u / 0x1_0000 % 0x100
    requires bs[if order == Little then 3 else 4] == u / 0x100_0000 % 0x100
    requires bs[if order == Little then 4 else 3] == u / 0x1_0000_0000 % 0x100
    requires bs[if order == Little then 5 else 2] == u / 0x100_0000_0000 % 0x100
    requires bs[if order == Little then 6 else 1] == u / 0x1_0000_0000_0000 % 0x100
    requires bs[if order == Little then 7 else 0] == u / 0x100_0000_0000_0000 % 0x100
    ensures bs == if order == Little then
              [u % 0x100, u / 0x100 % 0x100, u / 0x1_0000 % 0x100, u / 0x100_0000 % 0x100,
               u / 0x1_0000_0000 % 0x100, u / 0x100_0000_0000 % 0x100, u / 0x1_0000_0000_0000 % 0x100,
               u / 0x100_0000_0000_0000]
            else
              [u / 0x100_0000_0000_0000, u / 0x1_0000_0000_0000 % 0x100, u / 0x100_0000_0000 % 0x100,
               u / 0x1_0000_0000 % 0x100, u / 0x100_0000 % 0x100, u / 0x1_0000 % 0x100, u / 0x100 % 0x100,
               u % 0x100]
  {
  }

  /** The values that the operations take. */
  lemma {:induction false} TypeRanges(n: int)
    ensures HasType(Fixed(1, true), Num(n)) <==> -0x80 <= n < 0x80
    ensures HasType(Fixed(2, true), Num(n)) <==> -0x8000 <= n < 0x8000
    ensures HasType(Fixed(4, true), Num(n)) <==> -0x8000_0000 <= n < 0x8000_0000
    ensures HasType(Fixed(8, true), Num(n)) <==> -0x8000_0000_0000_0000 <= n < 0x8000_0000_0000_0000
    ensures HasType(Fixed(1, false), Num(n)) <==> 0 <= n < 0x100
    ensures HasType(Fixed(2, false), Num(n)) <==> 0 <= n < 0x1_0000
    ensures HasType(Fixed(4, false), Num(n)) <==> 0 <= n < 0x1_0000_0000
    ensures HasType(Fixed(8, false), Num(n)) <==> 0 <= n < 0x1_0000_0000_0000_0000
    ensures HasType(Varint(32), Num(n)) <==> 0 <= n < 0x1_0000_0000
    ensures HasType(Varint(64), Num(n)) <==> 0 <= n < 0x1_0000_0000_0000_0000
    ensures HasType(ZigZag(32), Num(n)) <==> -0x8000_0000 <= n < 0x8000_0000
    ensures HasType(ZigZag(64), Num(n)) <==> -0x8000_0000_0000_0000 <= n < 0x8000_0000_0000_0000
  {
    Powers();
  }

  /** The encodings of numbers: a fixed-width one is the word in two's complement, a varint the groups of the
      value itself, a ZigZag one the groups of twice the value, or for a negative one of twice its magnitude
      less one. */
  lemma {:induction false} NumberBytes(order: Order, host: Order, k: Kind, n: int)
    requires HasType(k, Num(n))
    ensures k.Fixed? ==>
      var m := match k.width case 1 => 0x100 case 2 => 0x1_0000 case 4 => 0x1_0000_0000 case _ => 0x1_0000_0000_0000_0000;
      && m + n >= 0
      && Encode(order, host, k, Num(n)) == FixedBytes(order, host, k.width, if n < 0 then n + m else n)
    ensures k.Varint? ==> n >= 0 && Encode(order, host, k, Num(n)) == VarintBytes(n)
    ensures k.ZigZag? ==> Encode(order, host, k, Num(n)) == VarintBytes(if n < 0 then -2 * n - 1 else 2 * n)
  {
    Powers();
    match k
    case Fixed(w, signed) => WrapSmall(8 * w, n);
    case Varint(_) =>
    case ZigZag(bits) => EncodeZigZagValue(bits, n);
  }

  /** The encodings of strings: the length, cut to 2, 4 or 8 bytes in the array's order or to 64 bits in
      groups of seven, and the bytes. */
  lemma {:induction false} TextBytes(order: Order, host: Order, s: seq<Byte>)
    ensures var n := |s| % 0x1_0000;
      Encode(order, host, Text(F16), Str(s)) ==
        (if order == Little then [n % 0x100, n / 0x100] else [n / 0x100, n % 0x100]) + s
    ensures var n := |s| % 0x1_0000_0000;
      Encode(order, host, Text(F32), Str(s)) == FixedBytes(order, host, 4, n) + s
    ensures var n := |s| % 0x1_0000_0000_0000_0000;
      Encode(order, host, Text(F64), Str(s)) == FixedBytes(order, host, 8, n) + s
    ensures var n := |s| % 0x1_0000_0000_0000_0000;
      && Encode(order, host, Text(Vint), Str(s)) == VarintBytes(n) + s && |VarintBytes(n)| <= 10
  {
    LengthIs(order, host, F16, |s|, |s| % 0x1_0000);
    LengthIs(order, host, F32, |s|, |s| % 0x1_0000_0000);
    LengthIs(order, host, F64, |s|, |s| % 0x1_0000_0000_0000_0000);
    LengthIs(order, host, Vint, |s|, |s| % 0x1_0000_0000_0000_0000);
    TwoBytes(host, |s| % 0x1_0000);
  }

  lemma {:induction false} LengthIs(order: Order, host: Order, x: Prefix, len: nat, n: nat)
    requires n == len % (match x case F16 => 0x1_0000 case F32 => 0x1_0000_0000 case _ => 0x1_0000_0000_0000_0000)
    ensures Wrap(PrefixBits(x), len) == n
    ensures x.F16? ==> PrefixBytes(order, host, x, n) == FixedBytes(order, host, 2, n)
    ensures x.F32? ==> PrefixBytes(order, host, x, n) == FixedBytes(order, host, 4, n)
    ensures x.F64? ==> PrefixBytes(order, host, x, n) == FixedBytes(order, host, 8, n)
    ensures x.Vint? ==> PrefixBytes(order, host, x, n) == VarintBytes(n) && |VarintBytes(n)| <= 10
  {
    Powers();
    if x.Vint? {
      VarintFitsBuffer(n, 64);
    }
  }

  // ------------------------------------------------------------ varints

  /** Seven bits to a byte, low ones first; the top bit says that more follow. */
  function VarintBytes(v: nat): (bs: seq<Byte>)
    ensures |bs| > 0
  {
    if v < 0x80 then [v] else [v % 0x80 + 0x80] + VarintBytes(v / 0x80)
  }

  /** No shorter sequence of groups could hold the value. */
  lemma {:induction false} VarintIsMinimal(v: nat, k: nat)
    requires k > 0
    ensures |VarintBytes(v)| <= k <==> v < Pow2(7 * k)
    decreases k
  {
    var m := Pow2(7 * (k - 1));
    Pow2Add(7, 7 * (k - 1));
    assert Pow2(7) == 0x80 && Pow2(7 * k) == 0x80 * m;
    if v >= 0x80 {
      QuotientBelow(v, m);
      if k > 1 {
        VarintIsMinimal(v / 0x80, k - 1);
      }
    }
  }

  lemma {:induction false} QuotientBelow(v: nat, m: nat)
    ensures v / 0x80 < m <==> v < 0x80 * m
  {
  }

  /** Group `i` holds bits 7i to 7i + 6; all bytes but the last say that more follow. */
  lemma {:induction false} VarintByteAt(v: nat, i: nat)
    requires i < |VarintBytes(v)|
    ensures VarintBytes(v)[i] == (v / Pow2(7 * i)) % 0x80 + if i + 1 < |VarintBytes(v)| then 0x80 else 0
  {
    if i > 0 {
      VarintByteAt(v / 0x80, i - 1);
      Pow2Add(7, 7 * (i - 1));
      assert Pow2(7) == 0x80;
      DivideTwice(v, 0x80, Pow2(7 * (i - 1)));
    }
  }

  /** At most 5 bytes for 32 bits and 10 for 64: `tmp` is never overrun. */
  lemma {:induction false} VarintFitsBuffer(v: nat, bits: nat)
    requires (bits == 32 || bits == 64) && v < Pow2(bits)
    ensures |VarintBytes(v)| <= if bits == 32 then 5 else 10
  {
    var k := if bits == 32 then 5 else 10;
    Pow2Mono(bits, 7 * k);
    VarintIsMinimal(v, k);
  }

  datatype Parsed<T> =
    | Got(value: T, next: nat)
    | OutOfRange(next: nat)      // `read` threw; the cursor has moved over what came before
    | NullBlock(next: nat)       // an empty read where the current block is null
  {
    predicate IsFailure() {
      !Got?
    }

    function PropagateFailure<U>(): Parsed<U>
      requires IsFailure()
    {
      if OutOfRange? then OutOfRange(next) else NullBlock(next)
    }

    function Extract(): (T, nat)
      requires !IsFailure()
    {
      (value, next)
    }
  }

  /** The decoding loop: group `g` is shifted into place, cut to the word, and or-ed in. */
  function ReadVarint(bits: nat, d: seq<Byte>, p: nat, g: nat, acc: nat): Parsed<nat>
    requires p <= |d|
    decreases bits - 7 * g
  {
    if 7 * g >= bits then Got(acc, p)
    else if p == |d| then OutOfRange(p)
    else
      var r := Or(bits, acc, Wrap(bits, (d[p] % 0x80) * Pow2(7 * g)));
      if d[p] < 0x80 then Got(r, p + 1) else ReadVarint(bits, d, p + 1, g + 1, r)
  }

  /** One or-ed group: the result stays a word, and nothing is shared with what is there. */
  lemma {:induction false} GroupIsAdded(bits: nat, g: nat, acc: nat, x: nat)
    requires 7 * g < bits && acc < Pow2(7 * g) && x < 0x80
    ensures Or(bits, acc, Wrap(bits, x * Pow2(7 * g))) == acc + Wrap(bits, x * Pow2(7 * g)) < Pow2(bits)
    ensures Or(bits, acc, Wrap(bits, x * Pow2(7 * g))) < Pow2(7 * (g + 1))
  {
    var k := 7 * g;
    var w, q := Pow2(k), Pow2(bits - k);
    var y := x % q;
    ModBelow(x, q);
    ShiftWrap(bits, k, x);
    assert Wrap(bits, x * w) == y * w;
    Pow2Add(bits - k, k);
    ScaledBelow(acc, y, w, q);
    OrDisjoint(bits, k, acc, y);
    Pow2Add(7, k);
    assert Pow2(7) == 0x80 && 7 * (g + 1) == 7 + k;
    ScaledBelow(acc, y, w, 0x80);
  }

  lemma {:induction false} ModBelow(x: nat, q: nat)
    requires q > 0
    ensures x % q <= x && x % q < q
  {
    if x < q {
      ModSmall(x, q);
    }
  }

  lemma {:induction false} ScaledBelow(a: nat, y: nat, w: nat, q: nat)
    requires a < w && y < q
    ensures a + y * w < q * w
  {
    assert (y + 1) * w <= q * w;
    assert (y + 1) * w == y * w + w;
  }

  /** On any input the decoder stops within 5 (10) bytes and returns a word. */
  lemma {:induction false} ReadVarintStops(bits: nat, d: seq<Byte>, p: nat, g: nat, acc: nat)
    requires p <= |d| && acc < Pow2(7 * g) && acc < Pow2(bits)
    ensures var r := ReadVarint(bits, d, p, g, acc);
            && !r.NullBlock?
            && p <= r.next <= |d|
            && (r.Got? ==> r.value < Pow2(bits))
            && 7 * (r.next - p) < (if 7 * g >= bits then 0 else bits - 7 * g) + 7
    decreases bits - 7 * g
  {
    if 7 * g < bits && p < |d| {
      GroupIsAdded(bits, g, acc, d[p] % 0x80);
      if d[p] >= 0x80 {
        var r := Or(bits, acc, Wrap(bits, (d[p] % 0x80) * Pow2(7 * g)));
        ReadVarintStops(bits, d, p + 1, g + 1, r);
      }
    }
  }

  lemma {:induction false} VarintDecodes(bits: nat, d: seq<Byte>, p: nat, g: nat, acc: nat, v: nat)
    requires p + |VarintBytes(v)| <= |d| && d[p..p + |VarintBytes(v)|] == VarintBytes(v)
    requires acc < Pow2(7 * g) && 7 * g < bits && v * Pow2(7 * g) < Pow2(bits)
    requires v > 0 || g == 0
    ensures ReadVarint(bits, d, p, g, acc) == Got(acc + v * Pow2(7 * g), p + |VarintBytes(v)|)
    decreases v
  {
    var bs, x, w := VarintBytes(v), v % 0x80, Pow2(7 * g);
    assert d[p] == bs[0] && d[p] % 0x80 == x;
    GroupIsAdded(bits, g, acc, x);
    GroupFits(v, x, w, Pow2(bits));
    assert Or(bits, acc, Wrap(bits, x * w)) == acc + x * w;
    if v >= 0x80 {
      var rest := VarintBytes(v / 0x80);
      assert bs[1..] == rest;
      assert d[p + 1..p + 1 + |rest|] == rest;
      NextGroup(bits, g, v);
      VarintDecodes(bits, d, p + 1, g + 1, acc + x * w, v / 0x80);
      assert ReadVarint(bits, d, p, g, acc) == ReadVarint(bits, d, p + 1, g + 1, acc + x * w);
    }
  }

  lemma {:induction false} GroupFits(v: nat, x: nat, w: nat, m: nat)
    requires x <= v && v * w < m
    ensures (x * w) % m == x * w
  {
    assert x * w <= v * w;
    ModSmall(x * w, m);
  }

  lemma {:induction false} NextGroup(bits: nat, g: nat, v: nat)
    requires v >= 0x80 && v * Pow2(7 * g) < Pow2(bits)
    ensures (v / 0x80) * Pow2(7 * (g + 1)) + (v % 0x80) * Pow2(7 * g) == v * Pow2(7 * g)
    ensures (v / 0x80) * Pow2(7 * (g + 1)) < Pow2(bits)
    ensures 7 * (g + 1) < bits
  {
    var w, q, x := Pow2(7 * g), v / 0x80, v % 0x80;
    var w' := Pow2(7 * (g + 1));
    Pow2Add(7, 7 * g);
    assert Pow2(7) == 0x80 && 7 * (g + 1) == 7 + 7 * g;
    SplitProduct(v, q, x, w, w');
    if bits <= 7 * (g + 1) {
      Pow2Mono(bits, 7 * (g + 1));
      assert false;
    }
  }

  lemma {:induction false} SplitProduct(v: nat, q: nat, x: nat, w: nat, w': nat)
    requires q > 0 && v == q * 0x80 + x && w' == 0x80 * w
    ensures q * w' + x * w == v * w && w' <= q * w'
    ensures x * w >= 0
  {
    assert q * (0x80 * w) == (q * 0x80) * w;
    assert (q * 0x80) * w + x * w == (q * 0x80 + x) * w;
    assert q * w' == (q - 1) * w' + w';
    assert (q - 1) * w' >= 0;
  }

  /** Every word decodes to itself, consuming exactly the bytes of its encoding. */
  lemma {:induction false} VarintRoundTrip(bits: nat, d: seq<Byte>, p: nat, v: nat)
    requires bits > 0 && v < Pow2(bits)
    requires p + |VarintBytes(v)| <= |d| && d[p..p + |VarintBytes(v)|] == VarintBytes(v)
    ensures ReadVarint(bits, d, p, 0, 0) == Got(v, p + |VarintBytes(v)|)
  {
    VarintDecodes(bits, d, p, 0, 0, v);
  }

  // ------------------------------------------------------------ any input

  /** The groups of seven bits in `k` bytes from `p` on, as one number. */
  ghost function Groups(d: seq<Byte>, p: nat, k: nat): nat
    requires p + k <= |d|
  {
    if k == 0 then 0 else Groups(d, p, k - 1) + (d[p + k - 1] % 0x80) * Pow2(7 * (k - 1))
  }

  lemma {:induction false} GroupsBelow(d: seq<Byte>, p: nat, k: nat)
    requires p + k <= |d|
    ensures Groups(d, p, k) < Pow2(7 * k)
  {
    if k > 0 {
      GroupsBelow(d, p, k - 1);
      Pow2Add(7, 7 * (k - 1));
      assert Pow2(7) == 0x80 && 7 * k == 7 + 7 * (k - 1);
      ScaledBelow(Groups(d, p, k - 1), d[p + k - 1] % 0x80, Pow2(7 * (k - 1)), 0x80);
    }
  }

  /** One round of the loop on the groups before `k`: the next one is added, and cut to the word. */
  lemma {:induction false} NextRound(bits: nat, d: seq<Byte>, p: nat, k: nat, r: nat)
    requires p + k < |d| && 7 * k < bits
    requires r == Or(bits, Groups(d, p, k), Wrap(bits, (d[p + k] % 0x80) * Pow2(7 * k)))
    ensures r == Groups(d, p, k + 1) % Pow2(bits)
    ensures 7 * (k + 1) <= bits ==> r == Groups(d, p, k + 1)
  {
    var acc, x, m := Groups(d, p, k), d[p + k] % 0x80, Pow2(bits);
    var y := x * Pow2(7 * k);
    GroupsBelow(d, p, k);
    GroupIsAdded(bits, k, acc, x);
    AddedModulo(acc, y, m);
    if 7 * (k + 1) <= bits {
      GroupsBelow(d, p, k + 1);
      Pow2Mono(7 * (k + 1), bits);
      ModSmall(acc + y, m);
    }
  }

  lemma {:induction false} AddedModulo(a: nat, y: nat, m: nat)
    requires m > 0 && a + y % m < m
    ensures (a + y) % m == a + y % m
  {
    assert y == (y / m) * m + y % m;
    ModuloUnique(a + y, m, y / m, a + y % m);
  }

  /** After `k` bytes that say that more follow. */
  lemma {:induction false} AfterRounds(bits: nat, d: seq<Byte>, p: nat, k: nat)
    requires p + k <= |d| && 7 * k <= bits && forall j :: p <= j < p + k ==> d[j] >= 0x80
    ensures ReadVarint(bits, d, p, 0, 0) == ReadVarint(bits, d, p + k, k, Groups(d, p, k))
  {
    if k > 0 {
      AfterRounds(bits, d, p, k - 1);
      NextRound(bits, d, p, k - 1,
                Or(bits, Groups(d, p, k - 1), Wrap(bits, (d[p + k - 1] % 0x80) * Pow2(7 * (k - 1)))));
    }
  }

  /** What the decoder makes of any bytes: it reads up to the first one below 0x80, but at most 5 (10), and
      returns the number that their groups of seven bits spell, cut to the word, overlong encodings included.
      When the data ends before, it is refused at the end. */
  lemma {:induction false} ReadVarintExactly(bits: nat, d: seq<Byte>, p: nat, k: nat)
    requires (bits == 32 || bits == 64) && p + k <= |d|
    requires forall j :: p <= j < p + k - 1 ==> d[j] >= 0x80
    ensures 0 < k <= (if bits == 32 then 5 else 10) && (d[p + k - 1] < 0x80 || k == if bits == 32 then 5 else 10) ==>
              ReadVarint(bits, d, p, 0, 0)
                == Got(Groups(d, p, k) % (if bits == 32 then 0x1_0000_0000 else 0x1_0000_0000_0000_0000), p + k)
    ensures p + k == |d| && k < (if bits == 32 then 5 else 10) && (k > 0 ==> d[p + k - 1] >= 0x80) ==>
              ReadVarint(bits, d, p, 0, 0) == OutOfRange(|d|)
  {
    var most := if bits == 32 then 5 else 10;
    if 0 < k <= most && (d[p + k - 1] < 0x80 || k == most) {
      LastRound(bits, d, p, k);
    }
    if p + k == |d| && k < most && (k > 0 ==> d[p + k - 1] >= 0x80) {
      AfterRounds(bits, d, p, k);
    }
  }

  lemma {:induction false} LastRound(bits: nat, d: seq<Byte>, p: nat, k: nat)
    requires (bits == 32 || bits == 64) && 0 < k && p + k <= |d| && 7 * (k - 1) < bits
    requires forall j :: p <= j < p + k - 1 ==> d[j] >= 0x80
    requires d[p + k - 1] < 0x80 || 7 * k >= bits
    ensures ReadVarint(bits, d, p, 0, 0)
      == Got(Groups(d, p, k) % (if bits == 32 then 0x1_0000_0000 else 0x1_0000_0000_0000_0000), p + k)
  {
    AfterRounds(bits, d, p, k - 1);
    var r := LastResult(bits, d, p, k - 1);
    WordSize(bits);
  }

  lemma {:induction false} LastResult(bits: nat, d: seq<Byte>, p: nat, g: nat) returns (r: nat)
    requires p + g < |d| && 7 * g < bits && (d[p + g] < 0x80 || 7 * (g + 1) >= bits)
    ensures r == Groups(d, p, g + 1) % Pow2(bits)
    ensures ReadVarint(bits, d, p + g, g, Groups(d, p, g)) == Got(r, p + g + 1)
  {
    r := Or(bits, Groups(d, p, g), Wrap(bits, (d[p + g] % 0x80) * Pow2(7 * g)));
    NextRound(bits, d, p, g, r);
    LastGroup(bits, d, p + g, g, Groups(d, p, g), r);
  }

  lemma {:induction false} WordSize(bits: nat)
    requires bits == 32 || bits == 64
    ensures Pow2(bits) == if bits == 32 then 0x1_0000_0000 else 0x1_0000_0000_0000_0000
  {
    Powers();
  }

  lemma {:induction false} LastGroup(bits: nat, d: seq<Byte>, q: nat, g: nat, acc: nat, r: nat)
    requires q < |d| && 7 * g < bits && (d[q] < 0x80 || 7 * (g + 1) >= bits)
    requires r == Or(bits, acc, Wrap(bits, (d[q] % 0x80) * Pow2(7 * g)))
    ensures ReadVarint(bits, d, q, g, acc) == Got(r, q + 1)
  {
  }

  // ------------------------------------------------------------ values

  function PrefixBytes(order: Order, host: Order, p: Prefix, n: nat): seq<Byte> {
    if p.Vint? then VarintBytes(n) else FixedBytes(order, host, PrefixBits(p) / 8, n)
  }

  /** The bytes that the `write...` operation of kind `k` puts down for `v`. */
  function Encode(order: Order, host: Order, k: Kind, v: Value): seq<Byte>
    requires HasType(k, v)
  {
    match k
    case Fixed(w, _) => FixedBytes(order, host, w, Wrap(8 * w, v.n))
    case Varint(_) => VarintBytes(v.n)
    case ZigZag(bits) => VarintBytes(EncodeZigZag(bits, v.n))
    case Text(p) => PrefixBytes(order, host, p, Wrap(PrefixBits(p), |v.s|)) + v.s
  }

  function ReadFixed(order: Order, host: Order, w: nat, d: seq<Byte>, p: nat): Parsed<nat>
    requires p <= |d|
  {
    if w > |d| - p then OutOfRange(p) else Got(FixedWord(order, host, d[p..p + w]), p + w)
  }

  function ReadPrefix(order: Order, host: Order, x: Prefix, d: seq<Byte>, p: nat): Parsed<nat>
    requires p <= |d|
  {
    if x.Vint? then ReadVarint(64, d, p, 0, 0) else ReadFixed(order, host, PrefixBits(x) / 8, d, p)
  }

  /** `read(&buff[0], n)` at `p`: there is no current block at the capacity. */
  function ReadRaw(d: seq<Byte>, capacity: nat, p: nat, n: nat): Parsed<Value>
    requires p <= |d|
  {
    if n > |d| - p then OutOfRange(p)
    else if n == 0 && p == capacity then NullBlock(p)
    else Got(Str(d[p..p + n]), p + n)
  }

  function DecodeFixed(order: Order, host: Order, w: nat, signed: bool, d: seq<Byte>, p: nat): (r: Parsed<Value>)
    requires p <= |d| && w > 0
    ensures p <= r.next <= |d|
  {
    var (u, q) :- ReadFixed(order, host, w, d, p);
    FixedWordIsWord(order, host, d[p..p + w]);
    Got(Num(if signed then AsSigned(8 * w, u) else u), q)
  }

  function DecodeVarint(bits: nat, d: seq<Byte>, p: nat): (r: Parsed<Value>)
    requires p <= |d|
    ensures p <= r.next <= |d|
  {
    ReadVarintStops(bits, d, p, 0, 0);
    var (u, q) :- ReadVarint(bits, d, p, 0, 0);
    Got(Num(u), q)
  }

  function DecodeZigZagInt(bits: nat, d: seq<Byte>, p: nat): (r: Parsed<Value>)
    requires p <= |d| && bits > 0
    ensures p <= r.next <= |d|
  {
    ReadVarintStops(bits, d, p, 0, 0);
    var (u, q) :- ReadVarint(bits, d, p, 0, 0);
    Got(Num(DecodeZigZag(bits, u)), q)
  }

  function DecodeText(order: Order, host: Order, x: Prefix, d: seq<Byte>, capacity: nat, p: nat): (r: Parsed<Value>)
    requires p <= |d|
    ensures p <= r.next <= |d|
  {
    ReadVarintStops(64, d, p, 0, 0);
    var (n, q) :- ReadPrefix(order, host, x, d, p);
    ReadRaw(d, capacity, q, n)
  }

  /** What the `read...` operation of kind `k` makes of the data `d` at `p`. */
  function Decode(order: Order, host: Order, k: Kind, d: seq<Byte>, capacity: nat, p: nat): (r: Parsed<Value>)
    requires GoodKind(k) && p <= |d|
    ensures p <= r.next <= |d|
  {
    match k
    case Fixed(w, signed) => DecodeFixed(order, host, w, signed, d, p)
    case Varint(bits) => DecodeVarint(bits, d, p)
    case ZigZag(bits) => DecodeZigZagInt(bits, d, p)
    case Text(x) => DecodeText(order, host, x, d, capacity, p)
  }

  lemma {:induction false} FixedWordIsWord(order: Order, host: Order, bs: seq<Byte>)
    ensures FixedWord(order, host, bs) < Pow2(8 * |bs|)
  {
    LittleBytesFrom(bs);
    LittleBytesFrom(Reverse(bs));
    LittleBytesFrom(Reverse(LittleBytes(|bs|, FromMemory(host, bs))));
  }

  ghost predicate HoldsAt(d: seq<Byte>, p: nat, bs: seq<Byte>) {
    p + |bs| <= |d| && d[p..p + |bs|] == bs
  }

  lemma {:induction false} PrefixRoundTrip(order: Order, writer: Order, reader: Order, x: Prefix,
                                           n: nat, d: seq<Byte>, p: nat)
    requires n < Pow2(PrefixBits(x)) && HoldsAt(d, p, PrefixBytes(order, writer, x, n))
    ensures ReadPrefix(order, reader, x, d, p) == Got(n, p + |PrefixBytes(order, writer, x, n)|)
  {
    if x.Vint? {
      VarintRoundTrip(64, d, p, n);
    } else {
      WordRoundTrip(order, writer, reader, PrefixBits(x) / 8, n, d, p);
    }
  }

  lemma {:induction false} WordRoundTrip(order: Order, writer: Order, reader: Order, w: nat, u: nat,
                                         d: seq<Byte>, p: nat)
    requires 0 < w && u < Pow2(8 * w) && HoldsAt(d, p, FixedBytes(order, writer, w, u))
    ensures ReadFixed(order, reader, w, d, p) == Got(u, p + w)
  {
    FixedRoundTrip(order, writer, reader, w, u);
  }

  lemma {:induction false} FixedIntRoundTrip(order: Order, writer: Order, reader: Order, w: nat, signed: bool,
                                             n: int, d: seq<Byte>, p: nat)
    requires 0 < w && if signed then Signed(8 * w, n) else 0 <= n < Pow2(8 * w)
    requires HoldsAt(d, p, FixedBytes(order, writer, w, Wrap(8 * w, n)))
    ensures DecodeFixed(order, reader, w, signed, d, p) == Got(Num(n), p + w)
  {
    var u := Wrap(8 * w, n);
    WordRoundTrip(order, writer, reader, w, u, d, p);
    assert ReadFixed(order, reader, w, d, p) == Got(u, p + w);
    if signed {
      SignedRoundTrip(8 * w, n);
    } else {
      ModSmall(n, Pow2(8 * w));
    }
  }

  lemma {:induction false} VarintIntRoundTrip(bits: nat, n: nat, d: seq<Byte>, p: nat)
    requires bits > 0 && n < Pow2(bits) && HoldsAt(d, p, VarintBytes(n))
    ensures DecodeVarint(bits, d, p) == Got(Num(n), p + |VarintBytes(n)|)
  {
    VarintRoundTrip(bits, d, p, n);
  }

  lemma {:induction false} ZigZagIntRoundTrip(bits: nat, n: int, d: seq<Byte>, p: nat)
    requires bits > 0 && Signed(bits, n) && HoldsAt(d, p, VarintBytes(EncodeZigZag(bits, n)))
    ensures DecodeZigZagInt(bits, d, p) == Got(Num(n), p + |VarintBytes(EncodeZigZag(bits, n))|)
  {
    VarintRoundTrip(bits, d, p, EncodeZigZag(bits, n));
    ZigZagRoundTrip(bits, n);
  }

  /** A number comes back whatever the hosts of writer and reader. */
  lemma {:induction false} NumberRoundTrip(order: Order, writer: Order, reader: Order, k: Kind, v: Value,
                                           d: seq<Byte>, capacity: nat, p: nat)
    requires HasType(k, v) && !k.Text? && HoldsAt(d, p, Encode(order, writer, k, v))
    ensures Decode(order, reader, k, d, capacity, p) == Got(v, p + |Encode(order, writer, k, v)|)
  {
    match k
    case Fixed(w, signed) =>
      FixedIntRoundTrip(order, writer, reader, w, signed, v.n, d, p);
    case Varint(bits) =>
      VarintIntRoundTrip(bits, v.n, d, p);
    case ZigZag(bits) =>
      ZigZagIntRoundTrip(bits, v.n, d, p);
  }

  ghost predicate GivesBack<T>(r: Parsed<T>, v: T) {
    r.Got? && r.value == v
  }

  /** A string comes back exactly when its length fits the length field and, if it is empty, it is not
      read at the very end of the last block. */
  lemma {:induction false} TextRoundTripExactly(order: Order, writer: Order, reader: Order, x: Prefix,
                                                s: seq<Byte>, d: seq<Byte>, capacity: nat, p: nat)
    requires HoldsAt(d, p, Encode(order, writer, Text(x), Str(s)))
    ensures Decode(order, reader, Text(x), d, capacity, p)
              == Got(Str(s), p + |Encode(order, writer, Text(x), Str(s))|)
            <==> && |s| < (match x case F16 => 0x1_0000 case F32 => 0x1_0000_0000 case _ => 0x1_0000_0000_0000_0000)
                 && (s != [] || p + |Encode(order, writer, Text(x), Str(s))| != capacity)
    ensures GivesBack(Decode(order, reader, Text(x), d, capacity, p), Str(s)) ==>
      Decode(order, reader, Text(x), d, capacity, p) == Got(Str(s), p + |Encode(order, writer, Text(x), Str(s))|)
  {
    var n := Wrap(PrefixBits(x), |s|);
    var head, all := PrefixBytes(order, writer, x, n), Encode(order, writer, Text(x), Str(s));
    TextReadsBack(order, writer, reader, x, s, d, capacity, p, n, head, all, DecodeText(order, reader, x, d, capacity, p));
    LengthFitsExactly(x, |s|);
  }

  lemma {:induction false} LengthFitsExactly(x: Prefix, len: nat)
    ensures Wrap(PrefixBits(x), len) == len <==>
      len < match x case F16 => 0x1_0000 case F32 => 0x1_0000_0000 case _ => 0x1_0000_0000_0000_0000
  {
    Powers();
    WrapIsSame(PrefixBits(x), len);
  }

  lemma {:induction false} TextReadsBack(order: Order, writer: Order, reader: Order, x: Prefix, s: seq<Byte>, d: seq<Byte>,
                                         capacity: nat, p: nat, n: nat, head: seq<Byte>, all: seq<Byte>, r: Parsed<Value>)
    requires n < Pow2(PrefixBits(x)) && head == PrefixBytes(order, writer, x, n)
    requires all == head + s && HoldsAt(d, p, all) && r == DecodeText(order, reader, x, d, capacity, p)
    ensures r == Got(Str(s), p + |all|) <==> n == |s| && (s != [] || p + |all| != capacity)
    ensures GivesBack(r, Str(s)) ==> r == Got(Str(s), p + |all|)
  {
    HoldsAtSplit(d, p, head, s);
    TextExactly(order, writer, reader, x, s, d, capacity, p, n, head, p + |head|, p + |all|, r);
  }

  lemma {:induction false} TextDecodesExactly(order: Order, writer: Order, reader: Order, x: Prefix, n: nat, head: seq<Byte>,
                                              d: seq<Byte>, capacity: nat, p: nat, q: nat)
    requires n < (match x case F16 => 0x1_0000 case F32 => 0x1_0000_0000 case _ => 0x1_0000_0000_0000_0000)
    requires x.F16? ==> head == FixedBytes(order, writer, 2, n)
    requires x.F32? ==> head == FixedBytes(order, writer, 4, n)
    requires x.F64? ==> head == FixedBytes(order, writer, 8, n)
    requires x.Vint? ==> head == VarintBytes(n)
    requires HoldsAt(d, p, head) && q == p + |head|
    ensures Decode(order, reader, Text(x), d, capacity, p) ==
        if n > |d| - q then OutOfRange(q)
        else if n == 0 && q == capacity then NullBlock(q)
        else Got(Str(d[q..q + n]), q + n)
  {
    LengthFits(order, writer, x, n, head);
    TextBehind(order, writer, reader, x, n, head, d, capacity, p, q);
  }

  lemma {:induction false} LengthFits(order: Order, host: Order, x: Prefix, n: nat, head: seq<Byte>)
    requires n < (match x case F16 => 0x1_0000 case F32 => 0x1_0000_0000 case _ => 0x1_0000_0000_0000_0000)
    requires x.F16? ==> head == FixedBytes(order, host, 2, n)
    requires x.F32? ==> head == FixedBytes(order, host, 4, n)
    requires x.F64? ==> head == FixedBytes(order, host, 8, n)
    requires x.Vint? ==> head == VarintBytes(n)
    ensures n < Pow2(PrefixBits(x)) && head == PrefixBytes(order, host, x, n)
  {
    LengthIs(order, host, x, n, n);
  }

  lemma {:induction false} TextBehind(order: Order, writer: Order, reader: Order, x: Prefix, n: nat, head: seq<Byte>,
                                      d: seq<Byte>, capacity: nat, p: nat, q: nat)
    requires n < Pow2(PrefixBits(x)) && head == PrefixBytes(order, writer, x, n) && HoldsAt(d, p, head) && q == p + |head|
    ensures Decode(order, reader, Text(x), d, capacity, p) ==
        if n > |d| - q then OutOfRange(q)
        else if n == 0 && q == capacity then NullBlock(q)
        else Got(Str(d[q..q + n]), q + n)
  {
    PrefixRoundTrip(order, writer, reader, x, n, d, p);
    TextIsRead(order, reader, x, n, d, capacity, p, q);
  }

  /** A number or a length that is cut short is refused where it begins. */
  lemma {:induction false} FixedCutShort(order: Order, host: Order, k: Kind, d: seq<Byte>, capacity: nat, p: nat)
    requires p <= |d| && GoodKind(k) && k.Fixed? && |d| - p < k.width
    ensures Decode(order, host, k, d, capacity, p) == OutOfRange(p)
  {
  }

  lemma {:induction false} LengthCutShort(order: Order, reader: Order, x: Prefix, d: seq<Byte>, capacity: nat, p: nat)
    requires p <= |d| && match x case F16 => |d| - p < 2 case F32 => |d| - p < 4 case F64 => |d| - p < 8 case Vint => false
    ensures Decode(order, reader, Text(x), d, capacity, p) == OutOfRange(p)
  {
  }

  lemma {:induction false} WrapIsSame(bits: nat, n: nat)
    ensures Wrap(bits, n) == n <==> n < Pow2(bits)
  {
    if n < Pow2(bits) {
      WrapSmall(bits, n);
    }
  }

  lemma {:induction false} TextExactly(order: Order, writer: Order, reader: Order, x: Prefix, s: seq<Byte>, d: seq<Byte>,
                                       capacity: nat, p: nat, n: nat, head: seq<Byte>, q: nat, end: nat, r: Parsed<Value>)
    requires n < Pow2(PrefixBits(x)) && head == PrefixBytes(order, writer, x, n)
    requires HoldsAt(d, p, head) && HoldsAt(d, q, s) && q == p + |head| && end == q + |s|
    requires r == DecodeText(order, reader, x, d, capacity, p)
    ensures r == Got(Str(s), end) <==> n == |s| && (s != [] || end != capacity)
    ensures GivesBack(r, Str(s)) ==> r == Got(Str(s), end)
  {
    TextAsRaw(order, writer, reader, x, d, capacity, p, n, head, q);
    RawRoundTripExactly(s, n, d, capacity, q, end, r);
  }

  lemma {:induction false} TextAsRaw(order: Order, writer: Order, reader: Order, x: Prefix, d: seq<Byte>, capacity: nat,
                                     p: nat, n: nat, head: seq<Byte>, q: nat)
    requires n < Pow2(PrefixBits(x)) && head == PrefixBytes(order, writer, x, n) && HoldsAt(d, p, head) && q == p + |head|
    ensures DecodeText(order, reader, x, d, capacity, p) == ReadRaw(d, capacity, q, n)
  {
    PrefixRoundTrip(order, writer, reader, x, n, d, p);
    TextIsRead(order, reader, x, n, d, capacity, p, q);
  }

  lemma {:induction false} TextIsRead(order: Order, host: Order, x: Prefix, n: nat, d: seq<Byte>, capacity: nat,
                                      p: nat, q: nat)
    requires p <= |d| && q <= |d| && ReadPrefix(order, host, x, d, p) == Got(n, q)
    ensures DecodeText(order, host, x, d, capacity, p) == ReadRaw(d, capacity, q, n)
  {
  }

  lemma {:induction false} RawRoundTripExactly(s: seq<Byte>, n: nat, d: seq<Byte>, capacity: nat, q: nat, end: nat, r: Parsed<Value>)
    requires HoldsAt(d, q, s) && end == q + |s| && r == ReadRaw(d, capacity, q, n)
    ensures r == Got(Str(s), end) <==> n == |s| && (s != [] || end != capacity)
    ensures GivesBack(r, Str(s)) ==> r == Got(Str(s), end)
  {
  }

  lemma {:induction false} HoldsAtSplit(d: seq<Byte>, p: nat, a: seq<Byte>, b: seq<Byte>)
    requires HoldsAt(d, p, a + b)
    ensures HoldsAt(d, p, a) && HoldsAt(d, p + |a|, b)
  {
    assert d[p..p + |a|] == (a + b)[..|a|];
    assert d[p + |a|..p + |a| + |b|] == (a + b)[|a|..];
  }

  // ------------------------------------------------------------ lists of values

  datatype Item = Item(kind: Kind, value: Value)

  predicate Typed(x: Item) {
    HasType(x.kind, x.value)
  }

  /** The lengths that fit the length field. */
  function Limit(x: Prefix): nat {
    match x
    case F16 => 0x1_0000
    case F32 => 0x1_0000_0000
    case _ => 0x1_0000_0000_0000_0000
  }

  /** A typed value that comes back when its encoding ends at `end`: a string has to be within its length
      field and, if it is empty, must not end at the capacity. */
  predicate Returns(x: Item, end: nat, capacity: nat)
    requires Typed(x)
  {
    x.kind.Text? ==>
      && |x.value.s| < Limit(x.kind.prefix)
      && (x.value.s != [] || end != capacity)
  }

  predicate AllGood(ks: seq<Kind>) {
    forall i :: 0 <= i < |ks| ==> GoodKind(ks[i])
  }

  predicate AllTyped(xs: seq<Item>) {
    forall i :: 0 <= i < |xs| ==> Typed(xs[i])
  }

  lemma {:induction false} TypedIsGood(xs: seq<Item>)
    requires AllTyped(xs)
    ensures AllGood(Kinds(xs))
  {
    forall i | 0 <= i < |xs| ensures GoodKind(Kinds(xs)[i]) {
      assert Typed(xs[i]);
    }
  }

  function EncodeAll(order: Order, host: Order, xs: seq<Item>): seq<Byte>
    requires AllTyped(xs)
  {
    if xs == [] then [] else
      assert Typed(xs[|xs| - 1]);
      EncodeAll(order, host, xs[..|xs| - 1])
      + Encode(order, host, xs[|xs| - 1].kind, xs[|xs| - 1].value)
  }

  function DecodeAll(order: Order, host: Order, ks: seq<Kind>, d: seq<Byte>, capacity: nat, p: nat)
    : (r: Parsed<seq<Value>>)
    requires AllGood(ks) && p <= |d|
    ensures p <= r.next <= |d|
  {
    if ks == [] then Got([], p) else
      var (vs, q) :- DecodeAll(order, host, ks[..|ks| - 1], d, capacity, p);
      var (v, r) :- Decode(order, host, ks[|ks| - 1], d, capacity, q);
      Got(vs + [v], r)
  }

  function Kinds(xs: seq<Item>): (ks: seq<Kind>)
    ensures |ks| == |xs| && forall i :: 0 <= i < |xs| ==> ks[i] == xs[i].kind
  {
    seq(|xs|, i requires 0 <= i < |xs| => xs[i].kind)
  }

  function Values(xs: seq<Item>): (vs: seq<Value>)
    ensures |vs| == |xs| && forall i :: 0 <= i < |xs| ==> vs[i] == xs[i].value
  {
    seq(|xs|, i requires 0 <= i < |xs| => xs[i].value)
  }

  /** A value comes back exactly when it `Returns`, and then all its bytes are consumed. */
  lemma {:induction false} ItemExactly(order: Order, writer: Order, reader: Order, x: Item,
                                       d: seq<Byte>, capacity: nat, p: nat, end: nat)
    requires Typed(x) && HoldsAt(d, p, Encode(order, writer, x.kind, x.value))
    requires end == p + |Encode(order, writer, x.kind, x.value)|
    ensures GivesBack(Decode(order, reader, x.kind, d, capacity, p), x.value) <==> Returns(x, end, capacity)
    ensures Returns(x, end, capacity) ==> Decode(order, reader, x.kind, d, capacity, p) == Got(x.value, end)
  {
    if x.kind.Text? {
      TextRoundTripExactly(order, writer, reader, x.kind.prefix, x.value.s, d, capacity, p);
    } else {
      NumberRoundTrip(order, writer, reader, x.kind, x.value, d, capacity, p);
    }
  }

  lemma {:induction false} EncodeAllSnoc(order: Order, host: Order, xs: seq<Item>, x: Item)
    requires Typed(x) && AllTyped(xs)
    ensures AllTyped(xs + [x])
    ensures EncodeAll(order, host, xs + [x])
         == EncodeAll(order, host, xs) + Encode(order, host, x.kind, x.value)
  {
    assert (xs + [x])[..|xs|] == xs;
  }

  lemma {:induction false} DecodeAllSnoc(order: Order, host: Order, ks: seq<Kind>, k: Kind,
                                         d: seq<Byte>, capacity: nat, p: nat)
    requires AllGood(ks) && GoodKind(k) && p <= |d|
    ensures AllGood(ks + [k])
    ensures DecodeAll(order, host, ks + [k], d, capacity, p) ==
            match DecodeAll(order, host, ks, d, capacity, p)
            case Got(vs, q) => (
              match Decode(order, host, k, d, capacity, q)
              case Got(v, r) => Got(vs + [v], r)
              case OutOfRange(r) => OutOfRange(r)
              case NullBlock(r) => NullBlock(r))
            case OutOfRange(q) => OutOfRange(q)
            case NullBlock(q) => NullBlock(q)
  {
    assert (ks + [k])[..|ks|] == ks;
  }

  lemma {:induction false} SnocItem(xs: seq<Item>, x: Item)
    ensures Kinds(xs + [x]) == Kinds(xs) + [x.kind]
    ensures Values(xs + [x]) == Values(xs) + [x.value]
  {
  }

  lemma {:induction false} SnocDiffers<T>(a: seq<T>, b: seq<T>, x: T, y: T)
    requires a != b
    ensures a + [x] != b + [y]
  {
    assert (a + [x])[..|a|] == a;
    assert (b + [y])[..|b|] == b;
  }

  /** All values come back, when the list is written from `p` on. */
  ghost predicate AllReturn(order: Order, writer: Order, xs: seq<Item>, p: nat, capacity: nat)
    requires AllTyped(xs)
  {
    xs == [] ||
      (var ys, x := xs[..|xs| - 1], xs[|xs| - 1];
       && AllTyped(ys) && Typed(x)
       && AllReturn(order, writer, ys, p, capacity)
       && Returns(x, p + |EncodeAll(order, writer, xs)|, capacity))
  }

  lemma {:induction false} AllReturnLast(order: Order, writer: Order, xs: seq<Item>, ys: seq<Item>, x: Item, p: nat,
                                         capacity: nat, end: nat)
    requires AllTyped(ys) && Typed(x) && AllTyped(xs) && xs == ys + [x] && end == p + |EncodeAll(order, writer, xs)|
    ensures AllReturn(order, writer, xs, p, capacity) <==> AllReturn(order, writer, ys, p, capacity) && Returns(x, end, capacity)
  {
    assert xs[..|xs| - 1] == ys && xs[|xs| - 1] == x;
  }

  /** One more item after a list that came back. */
  lemma {:induction false} ReadOneMore(order: Order, writer: Order, reader: Order, ks: seq<Kind>, x: Item,
                                       d: seq<Byte>, capacity: nat, p: nat, vs: seq<Value>, q: nat, end: nat)
    requires AllGood(ks) && Typed(x) && GoodKind(x.kind) && p <= |d|
    requires DecodeAll(order, reader, ks, d, capacity, p) == Got(vs, q)
    requires HoldsAt(d, q, Encode(order, writer, x.kind, x.value))
    requires end == q + |Encode(order, writer, x.kind, x.value)|
    ensures AllGood(ks + [x.kind])
    ensures GivesBack(DecodeAll(order, reader, ks + [x.kind], d, capacity, p), vs + [x.value])
            <==> Returns(x, end, capacity)
    ensures Returns(x, end, capacity) ==>
      DecodeAll(order, reader, ks + [x.kind], d, capacity, p) == Got(vs + [x.value], end)
  {
    ItemExactly(order, writer, reader, x, d, capacity, q, end);
    DecodeAllSnoc(order, reader, ks, x.kind, d, capacity, p);
    var r := Decode(order, reader, x.kind, d, capacity, q);
    if r.Got? && r.value != x.value {
      assert (vs + [r.value])[|vs|] != (vs + [x.value])[|vs|];
    }
  }

  /** One more item after a list that did not come back. */
  lemma {:induction false} StillNotBack(order: Order, reader: Order, ks: seq<Kind>, k: Kind, v: Value,
                                        d: seq<Byte>, capacity: nat, p: nat, vs: seq<Value>)
    requires AllGood(ks) && GoodKind(k) && p <= |d|
    requires !GivesBack(DecodeAll(order, reader, ks, d, capacity, p), vs)
    ensures AllGood(ks + [k])
    ensures !GivesBack(DecodeAll(order, reader, ks + [k], d, capacity, p), vs + [v])
  {
    DecodeAllSnoc(order, reader, ks, k, d, capacity, p);
    var r := DecodeAll(order, reader, ks, d, capacity, p);
    if r.Got? {
      var s := Decode(order, reader, k, d, capacity, r.next);
      if s.Got? {
        SnocDiffers(r.value, vs, s.value, v);
      }
    }
  }

  /** Splitting what is held into the first items and the last one. */
  lemma {:induction false} HoldsLast(order: Order, writer: Order, ys: seq<Item>, x: Item, d: seq<Byte>, p: nat)
    requires AllTyped(ys) && Typed(x) && AllTyped(ys + [x])
    requires HoldsAt(d, p, EncodeAll(order, writer, ys + [x]))
    ensures HoldsAt(d, p, EncodeAll(order, writer, ys))
    ensures HoldsAt(d, p + |EncodeAll(order, writer, ys)|, Encode(order, writer, x.kind, x.value))
    ensures |EncodeAll(order, writer, ys + [x])|
         == |EncodeAll(order, writer, ys)| + |Encode(order, writer, x.kind, x.value)|
  {
    EncodeAllSnoc(order, writer, ys, x);
    var a, b := EncodeAll(order, writer, ys), Encode(order, writer, x.kind, x.value);
    HoldsAtSplit(d, p, a, b);
  }

  /** The list goes on to come back exactly if the next item returns. */
  lemma {:induction false} StepBack(order: Order, writer: Order, reader: Order, ys: seq<Item>, x: Item,
                                    d: seq<Byte>, capacity: nat, p: nat, end: nat)
    requires AllTyped(ys) && Typed(x) && AllTyped(ys + [x]) && AllGood(Kinds(ys)) && AllGood(Kinds(ys + [x]))
    requires HoldsAt(d, p, EncodeAll(order, writer, ys + [x])) && p <= |d|
    requires end == p + |EncodeAll(order, writer, ys + [x])|
    requires DecodeAll(order, reader, Kinds(ys), d, capacity, p) == Got(Values(ys), p + |EncodeAll(order, writer, ys)|)
    ensures GivesBack(DecodeAll(order, reader, Kinds(ys + [x]), d, capacity, p), Values(ys + [x]))
            <==> Returns(x, end, capacity)
    ensures Returns(x, end, capacity) ==>
      DecodeAll(order, reader, Kinds(ys + [x]), d, capacity, p) == Got(Values(ys + [x]), end)
  {
    HoldsLast(order, writer, ys, x, d, p);
    SnocItem(ys, x);
    ReadOneMore(order, writer, reader, Kinds(ys), x, d, capacity, p, Values(ys), p + |EncodeAll(order, writer, ys)|, end);
  }

  lemma {:induction false} StepNotBack(order: Order, reader: Order, ys: seq<Item>, x: Item,
                                       d: seq<Byte>, capacity: nat, p: nat)
    requires Typed(x) && AllGood(Kinds(ys)) && AllGood(Kinds(ys + [x])) && p <= |d|
    requires !GivesBack(DecodeAll(order, reader, Kinds(ys), d, capacity, p), Values(ys))
    ensures !GivesBack(DecodeAll(order, reader, Kinds(ys + [x]), d, capacity, p), Values(ys + [x]))
  {
    SnocItem(ys, x);
    StillNotBack(order, reader, Kinds(ys), x.kind, x.value, d, capacity, p, Values(ys));
  }

  /** Reading with the same kinds returns the list that was written if and only if all its values return,
      and then it ends where the writer ended. */
  lemma {:induction false} ListRoundTrip(order: Order, writer: Order, reader: Order, xs: seq<Item>,
                                         d: seq<Byte>, capacity: nat, p: nat)
    requires AllTyped(xs) && AllGood(Kinds(xs)) && p <= |d|
    requires HoldsAt(d, p, EncodeAll(order, writer, xs))
    ensures GivesBack(DecodeAll(order, reader, Kinds(xs), d, capacity, p), Values(xs))
            <==> AllReturn(order, writer, xs, p, capacity)
    ensures AllReturn(order, writer, xs, p, capacity) ==>
      DecodeAll(order, reader, Kinds(xs), d, capacity, p) == Got(Values(xs), p + |EncodeAll(order, writer, xs)|)
  {
    ReturnsExactly(order, writer, reader, xs, d, capacity, p);
  }

  /** What `ListRoundTrip` says of a list. */
  ghost predicate Exactly(order: Order, writer: Order, reader: Order, xs: seq<Item>, d: seq<Byte>, capacity: nat, p: nat)
    requires AllTyped(xs) && AllGood(Kinds(xs)) && p <= |d|
  {
    if AllReturn(order, writer, xs, p, capacity)
    then DecodeAll(order, reader, Kinds(xs), d, capacity, p) == Got(Values(xs), p + |EncodeAll(order, writer, xs)|)
    else !GivesBack(DecodeAll(order, reader, Kinds(xs), d, capacity, p), Values(xs))
  }

  lemma {:induction false} ReturnsExactly(order: Order, writer: Order, reader: Order, xs: seq<Item>,
                                          d: seq<Byte>, capacity: nat, p: nat)
    requires AllTyped(xs) && AllGood(Kinds(xs)) && p <= |d|
    requires HoldsAt(d, p, EncodeAll(order, writer, xs))
    ensures Exactly(order, writer, reader, xs, d, capacity, p)
  {
    if xs != [] {
      var ys, x := xs[..|xs| - 1], xs[|xs| - 1];
      assert ys + [x] == xs;
      TypedFirst(ys, x);
      TypedIsGood(ys);
      HoldsLast(order, writer, ys, x, d, p);
      ReturnsExactly(order, writer, reader, ys, d, capacity, p);
      OneMoreExactly(order, writer, reader, ys, x, d, capacity, p);
    }
  }

  lemma {:induction false} OneMoreExactly(order: Order, writer: Order, reader: Order, ys: seq<Item>, x: Item,
                                          d: seq<Byte>, capacity: nat, p: nat)
    requires AllTyped(ys) && Typed(x) && AllTyped(ys + [x]) && AllGood(Kinds(ys)) && AllGood(Kinds(ys + [x])) && p <= |d|
    requires HoldsAt(d, p, EncodeAll(order, writer, ys + [x])) && Exactly(order, writer, reader, ys, d, capacity, p)
    ensures Exactly(order, writer, reader, ys + [x], d, capacity, p)
  {
    var end := p + |EncodeAll(order, writer, ys + [x])|;
    AllReturnLast(order, writer, ys + [x], ys, x, p, capacity, end);
    if AllReturn(order, writer, ys, p, capacity) {
      StepBack(order, writer, reader, ys, x, d, capacity, p, end);
    } else {
      StepNotBack(order, reader, ys, x, d, capacity, p);
    }
  }

  lemma {:induction false} TypedFirst(ys: seq<Item>, x: Item)
    requires AllTyped(ys + [x])
    ensures AllTyped(ys) && Typed(x)
  {
    assert Typed((ys + [x])[|ys|]);
    forall i | 0 <= i < |ys| ensures Typed(ys[i]) {
      assert Typed((ys + [x])[i]);
    }
  }

  /** Non-empty strings within their length fields return wherever they stand. */
  lemma {:induction false} NonEmptyReturn(order: Order, writer: Order, xs: seq<Item>, p: nat, capacity: nat)
    requires AllTyped(xs)
    requires forall i :: 0 <= i < |xs| && xs[i].kind.Text? ==>
               0 < |xs[i].value.s| < Limit(xs[i].kind.prefix)
    ensures AllReturn(order, writer, xs, p, capacity)
  {
    if xs != [] {
      var ys, x := xs[..|xs| - 1], xs[|xs| - 1];
      assert ys + [x] == xs;
      TypedFirst(ys, x);
      NonEmptyReturn(order, writer, ys, p, capacity);
      AllReturnLast(order, writer, xs, ys, x, p, capacity, p + |EncodeAll(order, writer, xs)|);
    }
  }
}
