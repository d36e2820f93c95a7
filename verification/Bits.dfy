/** Unsigned machine words as numbers: wrap-around, exclusive and inclusive or. */
module Bits {

  function Pow2(n: nat): (p: nat)
    ensures p > 0
  {
    if n == 0 then 1 else 2 * Pow2(n - 1)
  }

  lemma {:induction false} Pow2Add(a: nat, b: nat)
    ensures Pow2(a + b) == Pow2(a) * Pow2(b)
  {
    if a > 0 {
      Pow2Add(a - 1, b);
      assert Pow2(a + b) == 2 * Pow2(a + b - 1);
    }
  }

  lemma {:induction false} Pow2Mono(a: nat, b: nat)
    requires a <= b
    ensures Pow2(a) <= Pow2(b)
  {
    if a < b {
      Pow2Mono(a, b - 1);
    }
  }

  /** The `n`-bit word congruent to `x`. */
  function Wrap(n: nat, x: int): (r: nat)
    ensures r < Pow2(n)
  {
    x % Pow2(n)
  }

  function Xor(n: nat, a: nat, b: nat): nat {
    if n == 0 then 0 else (if a % 2 == b % 2 then 0 else 1) + 2 * Xor(n - 1, a / 2, b / 2)
  }

  function Or(n: nat, a: nat, b: nat): nat {
    if n == 0 then 0 else (if a % 2 == 0 && b % 2 == 0 then 0 else 1) + 2 * Or(n - 1, a / 2, b / 2)
  }

  lemma {:induction false} XorZero(n: nat, a: nat)
    requires a < Pow2(n)
    ensures Xor(n, a, 0) == a
  {
    if n > 0 {
      XorZero(n - 1, a / 2);
    }
  }

  /** Exclusive or with all ones is the complement. */
  lemma {:induction false} XorOnes(n: nat, a: nat)
    requires a < Pow2(n)
    ensures Xor(n, a, Pow2(n) - 1) == Pow2(n) - 1 - a
  {
    if n > 0 {
      XorOnes(n - 1, a / 2);
      assert (Pow2(n) - 1) / 2 == Pow2(n - 1) - 1;
    }
  }

  /** Or of words that share no bit is their sum. */
  lemma {:induction false} OrDisjoint(n: nat, k: nat, a: nat, b: nat)
    requires a < Pow2(k) && k <= n && b * Pow2(k) < Pow2(n)
    ensures Or(n, a, b * Pow2(k)) == a + b * Pow2(k)
  {
    if k == 0 {
      OrZero(n, b);
    } else {
      var c := b * Pow2(k - 1);
      assert b * Pow2(k) == 2 * c;
      OrDisjoint(n - 1, k - 1, a / 2, b);
    }
  }

  lemma {:induction false} OrZero(n: nat, b: nat)
    requires b < Pow2(n)
    ensures Or(n, 0, b) == b
  {
    if n > 0 {
      OrZero(n - 1, b / 2);
    }
  }

  /** Shifting a word left and cutting it to `n` bits keeps its low `n - k` bits. */
  lemma {:induction false} ShiftWrap(n: nat, k: nat, x: nat)
    requires k <= n
    ensures Wrap(n, x * Pow2(k)) == (x % Pow2(n - k)) * Pow2(k)
  {
    Pow2Add(n - k, k);
    ScaledModulo(x, Pow2(k), Pow2(n - k));
  }

  lemma {:induction false} ScaledModulo(x: nat, w: nat, q: nat)
    requires w > 0 && q > 0
    ensures q * w > 0 && (x * w) % (q * w) == (x % q) * w
  {
    var d, m := x / q, x % q;
    assert x == d * q + m;
    assert q * w > 0;
    assert x * w == d * (q * w) + m * w by {
      assert x * w == (d * q + m) * w == d * q * w + m * w;
      assert d * q * w == d * (q * w);
    }
    assert 0 <= m * w < q * w by {
      assert (m + 1) * w <= q * w;
      assert (m + 1) * w == m * w + w;
    }
    ModuloUnique(x * w, q * w, d, m * w);
  }

  lemma {:induction false} ModuloUnique(x: nat, n: nat, d: nat, m: nat)
    requires n > 0 && m < n && x == d * n + m
    ensures x % n == m && x / n == d
  {
    var q := x / n;
    assert x == q * n + x % n;
    assert q < d ==> (q + 1) * n <= d * n;
    assert q > d ==> (d + 1) * n <= q * n;
  }

  // ------------------------------------------------------------ ZigZag

  /** The signed values of `n`-bit words. */
  predicate Signed(n: nat, s: int)
    requires n > 0
  {
    0 - Pow2(n - 1) <= s < Pow2(n - 1)
  }

  /** The signed value of a word in two's complement. */
  function AsSigned(n: nat, u: nat): (s: int)
    requires n > 0 && u < Pow2(n)
    ensures Signed(n, s) && Wrap(n, s) == u
  {
    assert Pow2(n) == 2 * Pow2(n - 1);
    if u < Pow2(n - 1)
    then ModSmall(u, Pow2(n)); u
    else ModShift(u, Pow2(n)); u - Pow2(n)
  }

  lemma {:induction false} ModShift(u: nat, m: nat)
    requires u < m
    ensures (u - m) % m == u
  {
    var q := (u - m) / m;
    assert u - m == q * m + (u - m) % m;
    assert q >= 0 ==> q * m >= 0;
    assert q <= -2 ==> q * m <= -2 * m;
  }

  lemma {:induction false} WrapSmall(n: nat, x: int)
    requires 0 - Pow2(n) <= x < Pow2(n)
    ensures Wrap(n, x) == if x < 0 then x + Pow2(n) else x
  {
    var m := Pow2(n);
    if x < 0 {
      ModShift(x + m, m);
    } else {
      ModSmall(x, m);
    }
  }

  lemma {:induction false} ModSmall(x: nat, m: nat)
    requires x < m
    ensures x % m == x
  {
  }

  /** Two's complement: a word and its signed value determine each other. */
  lemma {:induction false} SignedRoundTrip(n: nat, s: int)
    requires n > 0 && Signed(n, s)
    ensures Wrap(n, s) == (if s < 0 then s + Pow2(n) else s)
    ensures AsSigned(n, Wrap(n, s)) == s
  {
    WrapSmall(n, s);
  }

  /** `EncodeZigzag32/64`: the negation, the doubling and the decrement all wrap around. */
  function EncodeZigZag(n: nat, s: int): (u: nat)
    requires n > 0 && Signed(n, s)
    ensures u < Pow2(n)
  {
    if s < 0 then Wrap(n, Wrap(n, -s) * 2 - 1) else Wrap(n, s * 2)
  }

  /** `DecodeZigzag32/64`: (v >> 1) ^ -(v & 1). */
  function DecodeZigZag(n: nat, u: nat): (s: int)
    requires n > 0 && u < Pow2(n)
    ensures Signed(n, s)
  {
    XorIsWord(n, u / 2, Wrap(n, -(u % 2)));
    AsSigned(n, Xor(n, u / 2, Wrap(n, -(u % 2))))
  }

  lemma {:induction false} XorIsWord(n: nat, a: nat, b: nat)
    ensures Xor(n, a, b) < Pow2(n)
  {
    if n > 0 {
      XorIsWord(n - 1, a / 2, b / 2);
    }
  }

  /** Magnitudes interleave: 0, -1, 1, -2, 2, ... and the least integer comes last. */
  lemma {:induction false} EncodeZigZagValue(n: nat, s: int)
    requires n > 0 && Signed(n, s)
    ensures EncodeZigZag(n, s) == if s < 0 then -2 * s - 1 else 2 * s
  {
    if s < 0 {
      WrapSmall(n, -s);
      WrapSmall(n, -s * 2 - 1);
    } else {
      WrapSmall(n, s * 2);
    }
  }

  lemma {:induction false} DecodeZigZagValue(n: nat, u: nat)
    requires n > 0 && u < Pow2(n)
    ensures DecodeZigZag(n, u) == if u % 2 == 0 then u / 2 else -(u / 2) - 1
  {
    if u % 2 == 0 {
      WrapSmall(n, 0);
      XorZero(n, u / 2);
    } else {
      WrapSmall(n, -1);
      XorOnes(n, u / 2);
    }
  }

  /** ZigZag is a bijection between the signed values and the words. */
  lemma {:induction false} ZigZagRoundTrip(n: nat, s: int)
    requires n > 0 && Signed(n, s)
    ensures DecodeZigZag(n, EncodeZigZag(n, s)) == s
  {
    EncodeZigZagValue(n, s);
    DecodeZigZagValue(n, EncodeZigZag(n, s));
  }

  lemma {:induction false} ZigZagOnto(n: nat, u: nat)
    requires n > 0 && u < Pow2(n)
    ensures EncodeZigZag(n, DecodeZigZag(n, u)) == u
  {
    DecodeZigZagValue(n, u);
    EncodeZigZagValue(n, DecodeZigZag(n, u));
  }
}
