/** C's bitwise operators on non-negative integers, and the contiguous-mask
    arithmetic the driver uses to pull packed fields out of register bytes. */
module Bits {

  /** An unsigned 8-bit value: a register address, a register's contents, one
      byte of a bus frame. */
  type Byte = b: int | 0 <= b < 256

  /** C's conversion of an int to `unsigned char`: keep the low eight bits. */
  function ToByte(x: int): (b: Byte)
    ensures x == b + 256 * (x / 256)
  {
    x % 256
  }

  function Pow2(k: nat): (p: nat)
    ensures p >= 1
  {
    if k == 0 then 1 else 2 * Pow2(k - 1)
  }

  /** `a & b`, bit by bit from the least significant end. */
  function BitAnd(a: nat, b: nat): nat
    decreases a
  {
    if a == 0 || b == 0 then 0
    else 2 * BitAnd(a / 2, b / 2) + (if a % 2 == 1 && b % 2 == 1 then 1 else 0)
  }

  /** `a | b`, bit by bit from the least significant end. */
  function BitOr(a: nat, b: nat): nat
    decreases a + b
  {
    if a == 0 then b
    else if b == 0 then a
    else 2 * BitOr(a / 2, b / 2) + (if a % 2 == 1 || b % 2 == 1 then 1 else 0)
  }

  /** `x >> k` for non-negative x. */
  function Shr(x: nat, k: nat): nat
  {
    DivNat(x, Pow2(k));
    x / Pow2(k)
  }

  /** Helper: dividing a natural number by a positive one gives a natural
      number. */
  lemma DivNat(x: nat, d: nat)
    requires d >= 1
    ensures x / d >= 0
  {
  }

  /** `x << k` for non-negative x. */
  function Shl(x: nat, k: nat): nat
  {
    x * Pow2(k)
  }

  /** `x & (((1 << width) - 1) << lo)`: bits lo .. lo+width-1 of x, left in place. */
  function Masked(x: nat, lo: nat, width: nat): nat
  {
    Shl(Shr(x, lo) % Pow2(width), lo)
  }

  /** `(x & mask) >> shift` for the contiguous mask of `width` bits at `lo`. */
  function AndShift(x: nat, lo: nat, width: nat, shift: nat): nat
  {
    Shr(Masked(x, lo, width), shift)
  }

  /** `(x >> k) & 1`; C's `>>` on a negative int is an arithmetic shift,
      which is Dafny's floor division by a power of two. */
  function Bit(x: int, k: nat): (b: int)
    ensures b == 0 || b == 1
  {
    (x / Pow2(k)) % 2
  }

  /** The composite return code `step | (inner << 8)` of the driver. The low
      byte names the failing step and the bytes above it hold the inner code. */
  function Nest(step: nat, inner: nat): (c: nat)
    requires step < 256
    ensures c % 256 == step && c / 256 == inner
  {
    DivModUnique(step + 256 * inner, 256, inner, step);
    step + 256 * inner
  }

  /** `Nest` is the C expression `step | (inner << 8)`. */
  lemma NestIsBitOr(step: nat, inner: nat)
    requires step < 256
    ensures Nest(step, inner) == BitOr(step, Shl(inner, 8))
  {
    BitOrDisjoint(step, inner, 8);
  }

  /** Helper: a positive factor does not make a natural number smaller. */
  lemma MulLower(d: nat, k: nat)
    requires k >= 1
    ensures d * k >= d
  {
  }

  /** x == d*q + r with 0 <= r < d fixes the quotient and the remainder. */
  lemma DivModUnique(x: nat, d: nat, q: nat, r: nat)
    requires d > 0 && x == d * q + r && r < d
    ensures x / d == q && x % d == r
  {
    var q' := x / d;
    if q' < q {
      MulLower(d, q - q');
      assert false;
    } else if q' > q {
      MulLower(d, q' - q);
      assert false;
    }
  }

  lemma DivHalf(x: nat, p: nat)
    requires p >= 1
    ensures (x / 2) / p == x / (2 * p)
    ensures x % (2 * p) == 2 * ((x / 2) % p) + x % 2
  {
    var q, r := (x / 2) / p, (x / 2) % p;
    assert x / 2 == p * q + r;
    assert x == (2 * p) * q + (2 * r + x % 2);
    DivModUnique(x, 2 * p, q, 2 * r + x % 2);
  }

  /** Masking with `2^w - 1` keeps the low w bits. */
  lemma {:induction false} BitAndLowMask(x: nat, w: nat)
    ensures BitAnd(x, Pow2(w) - 1) == x % Pow2(w)
  {
    if w == 0 || x == 0 {
    } else {
      var p := Pow2(w - 1);
      var m := 2 * p - 1;
      assert Pow2(w) - 1 == m;
      assert m / 2 == p - 1 && m % 2 == 1;
      BitAndLowMask(x / 2, w - 1);
      assert BitAnd(x, m) == 2 * BitAnd(x / 2, p - 1) + x % 2;
      DivHalf(x, p);
    }
  }

  lemma ShrStep(x: nat, k: nat)
    requires k > 0
    ensures Shr(x, k) == Shr(x / 2, k - 1)
  {
    DivHalf(x, Pow2(k - 1));
  }

  lemma ShlStep(m: nat, k: nat)
    requires k > 0
    ensures Shl(m, k) == 2 * Shl(m, k - 1)
  {
  }

  lemma ShlZero(m: nat, k: nat)
    ensures Shl(m, k) == 0 <==> m == 0
  {
    if m != 0 {
      MulLower(Pow2(k), m);
    }
  }

  /** Masking with a mask shifted left by k works on x shifted right by k. */
  lemma {:induction false} BitAndShifted(x: nat, m: nat, k: nat)
    ensures BitAnd(x, Shl(m, k)) == Shl(BitAnd(Shr(x, k), m), k)
  {
    if k > 0 {
      var r := BitAnd(Shr(x, k), m);
      ShlStep(m, k);
      ShrStep(x, k);
      ShlZero(m, k);
      ShlStep(r, k);
      if x == 0 || m == 0 {
        ShlZero(r, k);
      } else {
        BitAndShifted(x / 2, m, k - 1);
        assert Shl(m, k) % 2 == 0 && Shl(m, k) / 2 == Shl(m, k - 1);
        assert BitAnd(x, Shl(m, k)) == 2 * BitAnd(x / 2, Shl(m, k - 1));
      }
    }
  }

  /** `Masked` is C's `&` with the contiguous mask it describes. */
  lemma MaskedIsBitAnd(x: nat, lo: nat, width: nat)
    ensures Masked(x, lo, width) == BitAnd(x, Shl(Pow2(width) - 1, lo))
  {
    BitAndShifted(x, Pow2(width) - 1, lo);
    BitAndLowMask(Shr(x, lo), width);
  }

  /** Or-ing a value below 2^k with a multiple of 2^k is addition. */
  lemma {:induction false} BitOrDisjoint(s: nat, i: nat, k: nat)
    requires s < Pow2(k)
    ensures BitOr(s, Shl(i, k)) == s + Shl(i, k)
  {
    if k == 0 || s == 0 || i == 0 {
    } else {
      var b' := i * Pow2(k - 1);
      assert i * Pow2(k) == 2 * b';
      BitOrDisjoint(s / 2, i, k - 1);
      assert BitOr(s, 2 * b') == 2 * BitOr(s / 2, b') + s % 2;
    }
  }

  lemma {:induction false} Pow2Add(k: nat, w: nat)
    ensures Pow2(k + w) == Pow2(k) * Pow2(w)
  {
    if w > 0 {
      Pow2Add(k, w - 1);
      assert Pow2(k + w) == 2 * Pow2(k + (w - 1));
    }
  }

  /** Helpers: distributivity, associativity and monotonicity of
      multiplication, stated apart so that each proof that needs one sees
      only that fact. */
  lemma MulDistrib(p: int, a: int, b: int)
    ensures p * (a + b) == p * a + p * b
  {
  }

  lemma MulAssoc(p: int, q: int, b: int)
    ensures p * (q * b) == (p * q) * b
  {
  }

  lemma MulMono(p: nat, a: nat, b: nat)
    requires a <= b
    ensures p * a <= p * b
  {
  }

  /** Splitting x in radix p, then the quotient in radix q, is splitting x in
      radix p*q. */
  lemma MixedRadix(x: nat, p: nat, q: nat)
    requires p >= 1 && q >= 1
    ensures x % (p * q) == p * ((x / p) % q) + x % p
    ensures x / (p * q) == (x / p) / q
  {
    DivNat(x, p);
    var a, r0 := x / p, x % p;
    DivNat(a, q);
    var b, r1 := a / q, a % q;
    assert x == p * a + r0;
    assert a == q * b + r1;
    MulDistrib(p, q * b, r1);
    MulAssoc(p, q, b);
    MulMono(p, r1 + 1, q);
    MulDistrib(p, r1, 1);
    DivModUnique(x, p * q, b, p * r1 + r0);
  }

  /** The low k+w bits of x are its field of w bits at k, put back in place,
      plus its low k bits. */
  lemma FieldSplit(x: nat, k: nat, w: nat)
    ensures x % Pow2(k + w) == Masked(x, k, w) + x % Pow2(k)
    ensures Shr(x, k + w) == Shr(Shr(x, k), w)
  {
    Pow2Add(k, w);
    MixedRadix(x, Pow2(k), Pow2(w));
  }

  lemma {:induction false} BitOrComm(a: nat, b: nat)
    ensures BitOr(a, b) == BitOr(b, a)
    decreases a + b
  {
    if a != 0 && b != 0 {
      BitOrComm(a / 2, b / 2);
    }
  }

  /** Or-ing two values shifted by the same amount is shifting their or. */
  lemma {:induction false} BitOrShl(a: nat, b: nat, k: nat)
    ensures BitOr(Shl(a, k), Shl(b, k)) == Shl(BitOr(a, b), k)
  {
    if k > 0 {
      BitOrShl(a, b, k - 1);
      ShlStep(a, k);
      ShlStep(b, k);
      ShlStep(BitOr(a, b), k);
      ShlZero(a, k - 1);
      ShlZero(b, k - 1);
      var x, y := Shl(a, k - 1), Shl(b, k - 1);
      if x != 0 && y != 0 {
        assert BitOr(2 * x, 2 * y) == 2 * BitOr(x, y);
      }
    }
  }

  /** `(x & mask) >> s` with s at or above the field's low end is the field
      itself shifted right by the difference. */
  lemma AndShiftRight(x: nat, lo: nat, w: nat, s: nat)
    requires lo <= s
    ensures AndShift(x, lo, w, s) == Shr(Shr(x, lo) % Pow2(w), s - lo)
  {
    var m := Shr(x, lo) % Pow2(w);
    Pow2Add(lo, s - lo);
    MixedRadix(Shl(m, lo), Pow2(lo), Pow2(s - lo));
    assert Shl(m, lo) / Pow2(lo) == m by {
      DivModUnique(Shl(m, lo), Pow2(lo), m, 0);
    }
  }

  lemma ShlShl(a: nat, i: nat, j: nat)
    ensures Shl(Shl(a, i), j) == Shl(a, i + j)
  {
    Pow2Add(i, j);
    assert Shl(Shl(a, i), j) == a * (Pow2(i) * Pow2(j));
  }

  /** `(hi << k) | lo` is addition when lo fits below bit k. */
  lemma OrBelow(hi: nat, lo: nat, k: nat)
    requires lo < Pow2(k)
    ensures BitOr(Shl(hi, k), lo) == lo + Shl(hi, k)
  {
    BitOrComm(Shl(hi, k), lo);
    BitOrDisjoint(lo, hi, k);
  }

  /** `(a << (i + j)) | (b << j)` is `(b + (a << i)) << j` when b fits below bit i. */
  lemma OrStack(a: nat, b: nat, i: nat, j: nat)
    requires b < Pow2(i)
    ensures BitOr(Shl(a, i + j), Shl(b, j)) == Shl(b + Shl(a, i), j)
  {
    ShlShl(a, i, j);
    BitOrShl(Shl(a, i), b, j);
    OrBelow(a, b, i);
  }
}
