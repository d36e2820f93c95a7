/** A list of equal blocks as one flat byte sequence. */
module Blocks {
  import opened Bits

  type Byte = b: int | 0 <= b < 256

  ghost predicate Uniform(bs: seq<seq<Byte>>, base: nat) {
    forall i :: 0 <= i < |bs| ==> |bs[i]| == base
  }

  ghost function Flat(bs: seq<seq<Byte>>): seq<Byte> {
    if bs == [] then [] else Flat(bs[..|bs| - 1]) + bs[|bs| - 1]
  }

  /** `d` with `x` written over it at `p`, growing at the end if need be. */
  ghost function Overwrite(d: seq<Byte>, p: nat, x: seq<Byte>): seq<Byte>
    requires p <= |d|
  {
    d[..p] + x + if p + |x| < |d| then d[p + |x|..] else []
  }

  lemma {:induction false} OverwriteLength(d: seq<Byte>, p: nat, x: seq<Byte>)
    requires p <= |d|
    ensures |Overwrite(d, p, x)| == if p + |x| > |d| then p + |x| else |d|
  {
  }

  /** Writing `x` at `p` into `d` gives `e`, and the position `q` behind it: what `Overwrite` says, byte
      by byte. */
  ghost predicate Wrote(d: seq<Byte>, p: nat, e: seq<Byte>, q: nat, x: seq<Byte>) {
    && p <= |d| && q == p + |x|
    && |e| == (if q > |d| then q else |d|)
    && forall i :: 0 <= i < |e| ==> e[i] == if p <= i < q then x[i - p] else d[i]
  }

  lemma {:induction false} OverwriteWrote(d: seq<Byte>, p: nat, x: seq<Byte>)
    requires p <= |d|
    ensures Wrote(d, p, Overwrite(d, p, x), p + |x|, x)
  {
  }

  lemma {:induction false} WroteIsOverwrite(d: seq<Byte>, p: nat, e: seq<Byte>, q: nat, x: seq<Byte>)
    requires Wrote(d, p, e, q, x)
    ensures e == Overwrite(d, p, x)
  {
  }

  lemma {:induction false} WroteNothing(d: seq<Byte>, p: nat)
    requires p <= |d|
    ensures Wrote(d, p, d, p, [])
  {
  }

  /** Writing on from where the first write ended. */
  lemma {:induction false} WroteOn(d: seq<Byte>, p: nat, e: seq<Byte>, q: nat, f: seq<Byte>, r: nat, x: seq<Byte>, y: seq<Byte>)
    requires Wrote(d, p, e, q, x) && Wrote(e, q, f, r, y)
    ensures Wrote(d, p, f, r, x + y)
  {
    forall i | 0 <= i < |f| ensures f[i] == if p <= i < r then (x + y)[i - p] else d[i] {
      assert i < |e| ==> e[i] == if p <= i < q then x[i - p] else d[i];
    }
  }

  /** Memory `before` that may have grown and then had `x` written at `p` is now `after`. */
  ghost predicate Rewritten(before: seq<Byte>, after: seq<Byte>, p: nat, x: seq<Byte>) {
    && |before| <= |after| && p + |x| <= |after|
    && after[p..p + |x|] == x
    && forall i :: 0 <= i < |before| && !(p <= i < p + |x|) ==> after[i] == before[i]
  }

  lemma {:induction false} OverwriteRewrites(before: seq<Byte>, grown: seq<Byte>, p: nat, x: seq<Byte>)
    requires before <= grown && p + |x| <= |grown|
    ensures Rewritten(before, Overwrite(grown, p, x), p, x)
  {
  }

  /** Seen through its first bytes, rewritten memory is the overwritten data. */
  lemma {:induction false} RewrittenSeen(before: seq<Byte>, after: seq<Byte>, size: nat, p: nat, x: seq<Byte>)
    requires Rewritten(before, after, p, x) && p <= size <= |before|
    ensures after[..if p + |x| > size then p + |x| else size] == Overwrite(before[..size], p, x)
  {
    var n := if p + |x| > size then p + |x| else size;
    forall i | 0 <= i < n ensures after[..n][i] == Overwrite(before[..size], p, x)[i] {
      if p <= i < p + |x| {
        assert after[i] == after[p..p + |x|][i - p];
      }
    }
  }

  lemma {:induction false} FlatLength(bs: seq<seq<Byte>>, base: nat)
    requires Uniform(bs, base)
    ensures |Flat(bs)| == Times(|bs|, base)
  {
    if bs != [] {
      FlatLength(bs[..|bs| - 1], base);
    }
  }

  lemma {:induction false} FlatAppend(bs: seq<seq<Byte>>, b: seq<Byte>)
    ensures Flat(bs + [b]) == Flat(bs) + b
  {
    assert (bs + [b])[..|bs|] == bs;
  }

  lemma {:induction false} FlatConcat(a: seq<seq<Byte>>, b: seq<seq<Byte>>)
    ensures Flat(a + b) == Flat(a) + Flat(b)
  {
    if b == [] {
      assert a + b == a;
    } else {
      var n := |b| - 1;
      FlatConcat(a, b[..n]);
      assert (a + b)[..|a + b| - 1] == a + b[..n];
    }
  }

  lemma {:induction false} FlatPrefix(a: seq<seq<Byte>>, b: seq<seq<Byte>>)
    requires a <= b
    ensures Flat(a) <= Flat(b)
  {
    assert b == a + b[|a|..];
    FlatConcat(a, b[|a|..]);
  }

  lemma {:induction false} SeenPrefix(a: seq<seq<Byte>>, b: seq<seq<Byte>>, size: nat)
    requires a <= b && size <= |Flat(a)|
    ensures size <= |Flat(b)| && Flat(a)[..size] == Flat(b)[..size]
  {
    FlatPrefix(a, b);
  }

  lemma {:induction false} FirstBlock(bs: seq<seq<Byte>>, base: nat)
    requires Uniform(bs, base) && |bs| > 0
    ensures base <= |Flat(bs)| && Flat(bs[..1]) == Flat(bs)[..base]
  {
    FlatSplit(bs, base, 0);
    assert bs[..0] == [] && bs[..1] == [bs[0]];
    FlatOne(bs[0]);
  }

  lemma {:induction false} FlatOne(b: seq<Byte>)
    ensures Flat([b]) == b
  {
    assert [b][..0] == [];
  }

  /** The flat sequence is what precedes block `k`, block `k`, and what follows it. */
  lemma {:induction false} FlatSplit(bs: seq<seq<Byte>>, base: nat, k: nat)
    requires Uniform(bs, base) && k < |bs|
    ensures Flat(bs) == Flat(bs[..k]) + bs[k] + Flat(bs[k + 1..])
    ensures |Flat(bs[..k])| == Times(k, base)
    ensures Times(k, base) + base <= |Flat(bs)| == Times(|bs|, base)
  {
    assert bs == bs[..k] + [bs[k]] + bs[k + 1..];
    FlatAppend(bs[..k], bs[k]);
    FlatConcat(bs[..k] + [bs[k]], bs[k + 1..]);
    FlatLength(bs[..k], base);
    FlatLength(bs, base);
  }

  /** A stretch within block `k` is the same stretch of the flat sequence. */
  lemma {:induction false} FlatSlice(bs: seq<seq<Byte>>, base: nat, k: nat, off: nat, n: nat)
    requires Uniform(bs, base) && k < |bs| && off + n <= base
    ensures Times(k, base) + off + n <= |Flat(bs)|
    ensures Flat(bs)[Times(k, base) + off..Times(k, base) + off + n] == bs[k][off..off + n]
  {
    FlatSplit(bs, base, k);
    MiddleSlice(Flat(bs[..k]), bs[k], Flat(bs[k + 1..]), off, n);
  }

  lemma {:induction false} MiddleSlice(a: seq<Byte>, b: seq<Byte>, c: seq<Byte>, off: nat, n: nat)
    requires off + n <= |b|
    ensures (a + b + c)[|a| + off..|a| + off + n] == b[off..off + n]
  {
  }

  /** Writing within block `k` is writing at the same place of the flat sequence. */
  lemma {:induction false} FlatWrite(bs: seq<seq<Byte>>, base: nat, k: nat, off: nat, x: seq<Byte>)
    requires Uniform(bs, base) && k < |bs| && off + |x| <= base
    ensures Times(k, base) + off + |x| <= |Flat(bs)|
    ensures Flat(bs[k := Overwrite(bs[k], off, x)]) == Overwrite(Flat(bs), Times(k, base) + off, x)
  {
    var cs := bs[k := Overwrite(bs[k], off, x)];
    FlatSplit(bs, base, k);
    FlatSplit(cs, base, k);
    assert cs[..k] == bs[..k] && cs[k + 1..] == bs[k + 1..];
    OverwriteMiddle(Flat(bs[..k]), bs[k], Flat(bs[k + 1..]), off, x);
  }

  lemma {:induction false} OverwriteMiddle(a: seq<Byte>, b: seq<Byte>, c: seq<Byte>, off: nat, x: seq<Byte>)
    requires off + |x| <= |b|
    ensures Overwrite(a + b + c, |a| + off, x) == a + Overwrite(b, off, x) + c
  {
    var m := a + b + c;
    assert m[..|a| + off] == a + b[..off];
    assert m[|a| + off + |x|..] == b[off + |x|..] + c;
  }

  /** One byte more of `x`. */
  lemma {:induction false} OverwriteOneMore(e: seq<Byte>, d: seq<Byte>, p: nat, x: seq<Byte>, i: nat)
    requires i < |x| && p + |x| <= |d| && e == Overwrite(d, p, x[..i])
    ensures p + i < |e| && e[p + i := x[i]] == Overwrite(d, p, x[..i + 1])
  {
  }

  lemma {:induction false} OverwriteNothing(d: seq<Byte>, p: nat)
    requires p <= |d|
    ensures Overwrite(d, p, []) == d
  {
  }

  /** Writing into memory `m` that has grown to `grown`, seen through its first `size` bytes. */
  lemma {:induction false} OverwriteSeen(m: seq<Byte>, grown: seq<Byte>, size: nat, p: nat, x: seq<Byte>)
    requires p <= size <= |m| && p + |x| <= |grown| && m <= grown
    ensures |Overwrite(grown, p, x)| == |grown|
    ensures Overwrite(grown, p, x)[..if p + |x| > size then p + |x| else size] == Overwrite(m[..size], p, x)
  {
    assert grown[..size] == m[..size];
  }

  /** The bytes in `k` blocks; kept as a sum so that nothing else multiplies. */
  function Times(k: nat, base: nat): nat {
    if k == 0 then 0 else Times(k - 1, base) + base
  }

  lemma {:induction false} TimesIsProduct(k: nat, base: nat)
    ensures Times(k, base) == k * base
  {
    if k > 0 {
      TimesIsProduct(k - 1, base);
      assert k * base == (k - 1) * base + base;
    }
  }

  lemma {:induction false} TimesAdd(a: nat, b: nat, base: nat)
    ensures Times(a + b, base) == Times(a, base) + Times(b, base)
  {
    if b > 0 {
      TimesAdd(a, b - 1, base);
    }
  }

  lemma {:induction false} TimesMono(a: nat, b: nat, base: nat)
    requires a <= b
    ensures Times(a, base) <= Times(b, base)
  {
    TimesAdd(a, b - a, base);
  }

  /** Block number and offset of a position. */
  lemma {:induction false} DivMod(k: nat, base: nat, j: nat)
    requires j < base
    ensures (Times(k, base) + j) / base == k && (Times(k, base) + j) % base == j
  {
    TimesIsProduct(k, base);
    ModuloUnique(Times(k, base) + j, base, k, j);
  }

  /** A position short of the end falls into a block, at its remainder. */
  lemma {:induction false} InWhichBlock(p: nat, n: nat, base: nat)
    requires base > 0
    ensures p == Times(p / base, base) + p % base
    ensures p < Times(n, base) <==> p / base < n
  {
    var k := p / base;
    TimesIsProduct(k, base);
    if k < n {
      TimesMono(k + 1, n, base);
    } else {
      TimesMono(n, k, base);
    }
  }

  /** Writing block by block: as much as fits behind `off` in block `k`, the rest from the next on. */
  ghost function WriteInto(bs: seq<seq<Byte>>, base: nat, k: nat, off: nat, x: seq<Byte>): seq<seq<Byte>>
    requires Uniform(bs, base) && off < base && x != []
    requires Times(k, base) + off + |x| <= Times(|bs|, base)
    decreases |x|
  {
    BlockInRange(k, |bs|, base, off + |x|);
    if |x| <= base - off then bs[k := Overwrite(bs[k], off, x)]
    else WriteInto(bs[k := Overwrite(bs[k], off, x[..base - off])], base, k + 1, 0, x[base - off..])
  }

  lemma {:induction false} BlockInRange(k: nat, n: nat, base: nat, m: nat)
    requires m > 0 && Times(k, base) + m <= Times(n, base)
    ensures k < n
  {
    if n <= k {
      TimesMono(n, k, base);
      assert false;
    }
  }

  /** One round of writing `x[b..]`. */
  lemma {:induction false} WriteIntoStep(
      bs: seq<seq<Byte>>, cs: seq<seq<Byte>>, base: nat, k: nat, off: nat, x: seq<Byte>, b: nat, n: nat)
    requires Uniform(bs, base) && off < base && b < |x|
    requires Times(k, base) + off + |x| - b <= Times(|bs|, base)
    requires n == (if base - off >= |x| - b then |x| - b else base - off)
    requires k < |bs| && cs == bs[k := Overwrite(bs[k], off, x[b..b + n])]
    ensures Uniform(cs, base) && |cs| == |bs|
    ensures b + n == |x| ==> cs == WriteInto(bs, base, k, off, x[b..])
    ensures b + n < |x| ==> Times(k + 1, base) + |x| - b - n <= Times(|cs|, base)
    ensures b + n < |x| ==> WriteInto(cs, base, k + 1, 0, x[b + n..]) == WriteInto(bs, base, k, off, x[b..])
  {
    var y := x[b..];
    assert y[..n] == x[b..b + n] && y[n..] == x[b + n..];
    if b + n == |x| {
      assert y == x[b..b + n];
    }
  }

  /** Writing block by block is writing into the flat sequence. */
  lemma {:induction false} WriteIntoIsOverwrite(bs: seq<seq<Byte>>, base: nat, k: nat, off: nat, x: seq<Byte>)
    requires Uniform(bs, base) && off < base && x != []
    requires Times(k, base) + off + |x| <= Times(|bs|, base)
    ensures |Flat(bs)| == Times(|bs|, base)
    ensures Flat(WriteInto(bs, base, k, off, x)) == Overwrite(Flat(bs), Times(k, base) + off, x)
  {
    FlatLength(bs, base);
    WriteIntoWrote(bs, base, k, off, x, Times(k, base) + off);
    WroteIsOverwrite(Flat(bs), Times(k, base) + off, Flat(WriteInto(bs, base, k, off, x)), Times(k, base) + off + |x|, x);
  }

  lemma {:induction false} WriteIntoWrote(bs: seq<seq<Byte>>, base: nat, k: nat, off: nat, x: seq<Byte>, p: nat)
    requires Uniform(bs, base) && off < base && x != [] && p == Times(k, base) + off
    requires p + |x| <= Times(|bs|, base)
    ensures Wrote(Flat(bs), p, Flat(WriteInto(bs, base, k, off, x)), p + |x|, x)
    decreases |x|
  {
    BlockInRange(k, |bs|, base, off + |x|);
    if |x| <= base - off {
      WroteInBlock(bs, base, k, off, x, p);
    } else {
      var n := base - off;
      var cs := bs[k := Overwrite(bs[k], off, x[..n])];
      StaysUniform(bs, base, k, off, x[..n]);
      WroteInBlock(bs, base, k, off, x[..n], p);
      WriteIntoWrote(cs, base, k + 1, 0, x[n..], p + n);
      WroteOn(Flat(bs), p, Flat(cs), p + n, Flat(WriteInto(cs, base, k + 1, 0, x[n..])), p + |x|, x[..n], x[n..]);
      assert x[..n] + x[n..] == x;
      assert WriteInto(bs, base, k, off, x) == WriteInto(cs, base, k + 1, 0, x[n..]);
    }
  }

  lemma {:induction false} StaysUniform(bs: seq<seq<Byte>>, base: nat, k: nat, off: nat, x: seq<Byte>)
    requires Uniform(bs, base) && k < |bs| && off + |x| <= base
    ensures Uniform(bs[k := Overwrite(bs[k], off, x)], base)
  {
    OverwriteLength(bs[k], off, x);
  }

  lemma {:induction false} WroteInBlock(bs: seq<seq<Byte>>, base: nat, k: nat, off: nat, x: seq<Byte>, p: nat)
    requires Uniform(bs, base) && k < |bs| && off + |x| <= base && p == Times(k, base) + off
    ensures Wrote(Flat(bs), p, Flat(bs[k := Overwrite(bs[k], off, x)]), p + |x|, x)
  {
    FlatWrite(bs, base, k, off, x);
    OverwriteWrote(Flat(bs), p, x);
  }

  /** The pieces of a stretch of `d`. */
  lemma {:induction false} SliceMore(d: seq<Byte>, p: nat, k: nat, n: nat)
    requires p + k + n <= |d|
    ensures d[p..p + k] + d[p + k..p + k + n] == d[p..p + k + n]
  {
  }

  /** Reading block by block: as much as there is behind `off` in block `k`, the rest from the next on. */
  ghost function ReadFrom(bs: seq<seq<Byte>>, base: nat, k: nat, off: nat, len: nat): seq<Byte>
    requires Uniform(bs, base) && off < base && Times(k, base) + off + len <= Times(|bs|, base)
    decreases len
  {
    if len == 0 then [] else
      BlockInRange(k, |bs|, base, off + len);
      if len <= base - off then bs[k][off..off + len]
      else bs[k][off..] + ReadFrom(bs, base, k + 1, 0, len - (base - off))
  }

  /** Reading block by block is taking a stretch of the flat sequence. */
  lemma {:induction false} ReadFromIsSlice(bs: seq<seq<Byte>>, base: nat, k: nat, off: nat, len: nat, p: nat)
    requires Uniform(bs, base) && off < base && p == Times(k, base) + off && p + len <= Times(|bs|, base)
    ensures |Flat(bs)| == Times(|bs|, base)
    ensures ReadFrom(bs, base, k, off, len) == Flat(bs)[p..p + len]
    decreases len
  {
    FlatLength(bs, base);
    if len == 0 {
      NoSlice(Flat(bs), p);
    } else {
      BlockInRange(k, |bs|, base, off + len);
      var n := base - off;
      if len <= n {
        ReadFromOne(bs, base, k, off, len, p);
      } else {
        ReadFromIsSlice(bs, base, k + 1, 0, len - n, p + n);
        ReadFromMore(bs, base, k, off, len, p, n, Flat(bs));
      }
    }
  }

  lemma {:induction false} NoSlice(d: seq<Byte>, p: nat)
    requires p <= |d|
    ensures d[p..p] == []
  {
  }

  /** A read within one block. */
  lemma {:induction false} ReadFromOne(bs: seq<seq<Byte>>, base: nat, k: nat, off: nat, len: nat, p: nat)
    requires Uniform(bs, base) && off < base && p == Times(k, base) + off && p + len <= Times(|bs|, base)
    requires 0 < len <= base - off && k < |bs|
    ensures p + len <= |Flat(bs)| && ReadFrom(bs, base, k, off, len) == Flat(bs)[p..p + len]
  {
    FlatSlice(bs, base, k, off, len);
  }

  lemma {:induction false} ReadFromMore(bs: seq<seq<Byte>>, base: nat, k: nat, off: nat, len: nat, p: nat, n: nat, d: seq<Byte>)
    requires Uniform(bs, base) && off < base && p == Times(k, base) + off && p + len <= Times(|bs|, base)
    requires n == base - off < len && k < |bs| && d == Flat(bs) && p + len <= |d|
    requires Times(k + 1, base) + (len - n) <= Times(|bs|, base)
    requires ReadFrom(bs, base, k + 1, 0, len - n) == d[p + n..p + n + (len - n)]
    ensures ReadFrom(bs, base, k, off, len) == d[p..p + len]
  {
    FlatSlice(bs, base, k, off, n);
    ReadFromSplits(bs, base, k, off, len, n);
    JoinSlices(d, p, n, len - n, bs[k][off..off + n], ReadFrom(bs, base, k + 1, 0, len - n));
    assert p + (n + (len - n)) == p + len;
  }

  /** A read that goes on into the next block. */
  lemma {:induction false} ReadFromSplits(bs: seq<seq<Byte>>, base: nat, k: nat, off: nat, len: nat, n: nat)
    requires Uniform(bs, base) && off < base && n == base - off < len
    requires k < |bs| && Times(k, base) + off + len <= Times(|bs|, base)
    ensures Times(k + 1, base) == Times(k, base) + base
    ensures ReadFrom(bs, base, k, off, len) == bs[k][off..off + n] + ReadFrom(bs, base, k + 1, 0, len - n)
  {
    assert bs[k][off..] == bs[k][off..off + n];
  }

  lemma {:induction false} SliceOfPrefix(d: seq<Byte>, size: nat, p: nat, n: nat)
    requires p + n <= size <= |d|
    ensures d[..size][p..p + n] == d[p..p + n]
  {
  }

  lemma {:induction false} JoinSlices(d: seq<Byte>, p: nat, k: nat, n: nat, a: seq<Byte>, b: seq<Byte>)
    requires p + k + n <= |d| && a == d[p..p + k] && b == d[p + k..p + k + n]
    ensures a + b == d[p..p + (k + n)]
  {
    SliceMore(d, p, k, n);
  }
}
