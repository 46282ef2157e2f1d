/**
 Bitwise operations on the natural numbers, by recursion on the binary digits: the machine words
 of Rust and the unbounded `BigInt`s of JavaScript share them.
 */
module Bits {
  function Xor(a: nat, b: nat): nat {
    if a == 0 then b
    else if b == 0 then a
    else (a % 2 + b % 2) % 2 + 2 * Xor(a / 2, b / 2)
  }

  /** `x >> k`. */
  function Shr(x: nat, k: nat): nat
    decreases k
  {
    if k == 0 then x else Shr(x / 2, k - 1)
  }

  function Pow2(k: nat): (p: nat)
    ensures p > 0
  {
    if k == 0 then 1 else 2 * Pow2(k - 1)
  }

  /** `x & mask` for a non-negative mask; a negative `x` counts as infinite two's complement. */
  function And(x: int, mask: nat): nat
    decreases mask
  {
    if mask == 0 then 0 else (x % 2) * (mask % 2) + 2 * And(x / 2, mask / 2)
  }

  lemma XorZero(a: nat)
    ensures Xor(a, 0) == a && Xor(0, a) == a
  {
  }

  /** One binary digit at a time. */
  lemma {:induction false} XorDigit(a: nat, b: nat)
    ensures Xor(a, b) % 2 == (a % 2 + b % 2) % 2 && Xor(a, b) / 2 == Xor(a / 2, b / 2)
  {
    if a == 0 || b == 0 {
      XorZero(a + b);
      XorZero((a + b) / 2);
    } else {
      Digits(Xor(a, b), (a % 2 + b % 2) % 2, Xor(a / 2, b / 2));
    }
    hide Xor;
  }

  lemma Digits(x: nat, low: nat, high: nat)
    requires low < 2 && x == low + 2 * high
    ensures x % 2 == low && x / 2 == high
  {
  }

  lemma SameDigits(a: nat, b: nat)
    requires a % 2 == b % 2 && a / 2 == b / 2
    ensures a == b
  {
  }

  lemma {:induction false} XorCommutes(a: nat, b: nat)
    ensures Xor(a, b) == Xor(b, a)
  {
    if a != 0 && b != 0 { XorCommutes(a / 2, b / 2); }
  }

  lemma {:induction false} XorAssociates(a: nat, b: nat, c: nat)
    ensures Xor(Xor(a, b), c) == Xor(a, Xor(b, c))
    decreases a
  {
    hide Xor;
    if a == 0 {
      XorZero(b);
      XorZero(Xor(b, c));
    } else {
      XorDigit(a, b);
      XorDigit(b, c);
      XorDigit(Xor(a, b), c);
      XorDigit(a, Xor(b, c));
      XorAssociates(a / 2, b / 2, c / 2);
      SameDigits(Xor(Xor(a, b), c), Xor(a, Xor(b, c)));
    }
  }

  lemma {:induction false} XorSelf(a: nat)
    ensures Xor(a, a) == 0
  {
    if a != 0 { XorSelf(a / 2); }
  }

  lemma XorCancels(a: nat, b: nat)
    ensures Xor(Xor(a, b), b) == a
  {
    XorAssociates(a, b, b);
    XorSelf(b);
    XorZero(a);
  }

  lemma {:induction false} ShrXor(a: nat, b: nat, k: nat)
    ensures Shr(Xor(a, b), k) == Xor(Shr(a, k), Shr(b, k))
    decreases k
  {
    if k != 0 {
      XorDigit(a, b);
      ShrXor(a / 2, b / 2, k - 1);
    }
  }

  lemma {:induction false} ShrShrinks(x: nat, k: nat)
    ensures Shr(x, k) <= x && (k > 0 && x > 0 ==> Shr(x, k) < x)
    decreases k
  {
    if k != 0 { ShrShrinks(x / 2, k - 1); }
  }

  lemma {:induction false} ShrZero(k: nat)
    ensures Shr(0, k) == 0
  {
    if k != 0 { ShrZero(k - 1); }
  }

  lemma {:induction false} ShrDivides(x: nat, k: nat)
    ensures Shr(x, k) == x / Pow2(k)
    decreases k
  {
    if k != 0 {
      ShrDivides(x / 2, k - 1);
      DivTwice(x, Pow2(k - 1));
    }
  }

  lemma DivTwice(x: nat, d: nat)
    requires d > 0
    ensures x / 2 / d == x / (2 * d)
  {
    var q, r := x / 2 / d, x / 2 % d;
    assert x / 2 == d * q + r;
    assert x == 2 * d * q + (2 * r + x % 2);
    DivUnique(x, 2 * d, q, 2 * r + x % 2);
  }

  lemma {:induction false} MulGap(d: nat, a: int, b: int)
    requires a < b
    ensures d * a + d <= d * b
    decreases b - a
  {
    assert d * b == d * (b - 1) + d;
    if a < b - 1 { MulGap(d, a, b - 1); }
  }

  lemma DivUnique(x: int, d: nat, q: int, r: nat)
    requires d > 0 && r < d && x == d * q + r
    ensures x / d == q && x % d == r
  {
    var q', r' := x / d, x % d;
    assert x == d * q' + r';
    if q < q' {
      MulGap(d, q, q');
    } else if q' < q {
      MulGap(d, q', q);
    }
  }

  lemma {:induction false} XorBound(a: nat, b: nat, k: nat)
    requires a < Pow2(k) && b < Pow2(k)
    ensures Xor(a, b) < Pow2(k)
    decreases k
  {
    if k != 0 && a != 0 && b != 0 { XorBound(a / 2, b / 2, k - 1); }
  }

  lemma HalfOf(hi: nat, lo: nat, d: nat)
    ensures (hi * (2 * d) + lo) / 2 == hi * d + lo / 2 && (hi * (2 * d) + lo) % 2 == lo % 2
  {
    assert hi * (2 * d) == 2 * (hi * d);
  }

  /** The upper and the lower digits do not meet. */
  lemma {:induction false} XorSplit(hi: nat, lo: nat, hi': nat, lo': nat, k: nat)
    requires lo < Pow2(k) && lo' < Pow2(k)
    ensures Xor(hi * Pow2(k) + lo, hi' * Pow2(k) + lo') == Xor(hi, hi') * Pow2(k) + Xor(lo, lo')
    decreases k
  {
    hide Xor;
    XorZero(0);
    if k != 0 {
      var d := Pow2(k - 1);
      var a, b := hi * Pow2(k) + lo, hi' * Pow2(k) + lo';
      HalfOf(hi, lo, d);
      HalfOf(hi', lo', d);
      XorDigit(a, b);
      XorDigit(lo, lo');
      XorSplit(hi, lo / 2, hi', lo' / 2, k - 1);
      HalfOf(Xor(hi, hi'), Xor(lo, lo'), d);
      SameDigits(Xor(a, b), Xor(hi, hi') * Pow2(k) + Xor(lo, lo'));
    }
  }

  lemma Flipped(a: nat, m: nat)
    requires a < 2 * m
    ensures (2 * m - 1) % 2 == 1 && (2 * m - 1) / 2 == m - 1
    ensures (2 * m - 1 - a) % 2 == (a % 2 + 1) % 2 && (2 * m - 1 - a) / 2 == m - 1 - a / 2
  {
  }

  /** Against all ones, every digit flips. */
  lemma {:induction false} XorOnes(a: nat, k: nat)
    requires a < Pow2(k)
    ensures Xor(a, Pow2(k) - 1) == Pow2(k) - 1 - a
    decreases k
  {
    hide Xor;
    if k == 0 {
      XorZero(0);
    } else {
      var m := Pow2(k - 1);
      Flipped(a, m);
      XorDigit(a, 2 * m - 1);
      XorOnes(a / 2, k - 1);
      SameDigits(Xor(a, 2 * m - 1), 2 * m - 1 - a);
    }
  }

  /** Masking with k ones is reduction modulo 2^k, for negative numbers too. */
  lemma {:induction false} MaskIsMod(x: int, k: nat)
    ensures And(x, Pow2(k) - 1) == x % Pow2(k)
    decreases k
  {
    if k == 0 {
      NoMask(x);
    } else {
      MaskIsMod(x / 2, k - 1);
      MaskStep(x, Pow2(k - 1), Pow2(k));
    }
    hide And;
  }

  lemma NoMask(x: int)
    ensures And(x, 0) == 0 == x % 1
  {
  }

  lemma MaskStep(x: int, d: nat, p: nat)
    requires d > 0 && p == 2 * d && And(x / 2, d - 1) == x / 2 % d
    ensures And(x, p - 1) == x % p
  {
    ModTwice(x, d);
    assert (p - 1) % 2 == 1 && (p - 1) / 2 == d - 1;
    assert And(x, p - 1) == x % 2 * 1 + 2 * And(x / 2, d - 1);
    hide And;
  }

  lemma ModTwice(x: int, d: nat)
    requires d > 0
    ensures x % (2 * d) == x % 2 + 2 * (x / 2 % d)
  {
    var q, r := x / 2 / d, x / 2 % d;
    assert x / 2 == d * q + r;
    assert x == 2 * d * q + (2 * r + x % 2);
    DivUnique(x, 2 * d, q, 2 * r + x % 2);
  }

  // ---------------------------------------------------------------- xor-shift

  /** `x ^ (x >> k)`. */
  function XorShift(x: nat, k: nat): nat {
    Xor(x, Shr(x, k))
  }

  /** The inverse of `XorShift`: y ^ (y >> k) ^ (y >> 2k) ^ ... */
  function UnXorShift(y: nat, k: nat): nat
    requires k > 0
    decreases y
  {
    if y == 0 then 0
    else
      ShrShrinks(y, k);
      Xor(y, UnXorShift(Shr(y, k), k))
  }

  lemma {:induction false} XorShiftUndone(x: nat, k: nat)
    requires k > 0
    ensures UnXorShift(XorShift(x, k), k) == x
    decreases x
  {
    if x == 0 {
      ShrZero(k);
    } else {
      var y, x' := XorShift(x, k), Shr(x, k);
      ShrShrinks(x, k);
      XorShiftUndone(x', k);
      ShrXor(x, x', k);
      assert Shr(y, k) == XorShift(x', k);
      XorCancels(x, x');
      if y == 0 {
        XorZero(x');
      }
    }
  }

  lemma {:induction false} XorShiftDone(y: nat, k: nat)
    requires k > 0
    ensures XorShift(UnXorShift(y, k), k) == y
    decreases y
  {
    if y == 0 {
      ShrZero(k);
    } else {
      var y' := Shr(y, k);
      ShrShrinks(y, k);
      XorShiftDone(y', k);
      var u := UnXorShift(y', k);
      assert Xor(u, Shr(u, k)) == y';
      XorCommutes(u, Shr(u, k));
      XorCancels(Shr(u, k), u);
      XorCommutes(y', u);
      XorCommutes(y', Shr(u, k));
      assert Xor(y', Shr(u, k)) == u by {
        XorCancels(u, Shr(u, k));
      }
      ShrXor(y, u, k);
      XorCancels(y, u);
    }
  }

  lemma XorShiftBound(x: nat, k: nat, n: nat)
    requires x < Pow2(n)
    ensures XorShift(x, k) < Pow2(n)
  {
    ShrShrinks(x, k);
    XorBound(x, Shr(x, k), n);
  }

  lemma {:induction false} UnXorShiftBound(y: nat, k: nat, n: nat)
    requires k > 0 && y < Pow2(n)
    ensures UnXorShift(y, k) < Pow2(n)
    decreases y
  {
    if y != 0 {
      ShrShrinks(y, k);
      UnXorShiftBound(Shr(y, k), k, n);
      XorBound(y, UnXorShift(Shr(y, k), k), n);
    }
  }
}
