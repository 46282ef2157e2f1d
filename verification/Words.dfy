/** Wrapping 64-bit arithmetic, and the invertible steps the seeded mixers are built from. */
module Words {
  import opened Bits

  const TWO64: nat := 0x1_0000_0000_0000_0000

  type u64 = x: nat | x < TWO64

  function WrapMul(a: u64, b: u64): u64 {
    (a * b) % TWO64
  }

  function WrapAdd(a: u64, b: u64): u64 {
    (a + b) % TWO64
  }

  function WrapSub(a: u64, b: u64): u64 {
    (a - b) % TWO64
  }

  lemma {:induction false} Pow2Add(j: nat, k: nat)
    ensures Pow2(j + k) == Pow2(j) * Pow2(k)
  {
    if j != 0 {
      Pow2Add(j - 1, k);
      assert 2 * (Pow2(j - 1) * Pow2(k)) == 2 * Pow2(j - 1) * Pow2(k);
    }
  }

  lemma Pow2Is64()
    ensures Pow2(8) == 256 && Pow2(16) == 0x1_0000 && Pow2(32) == 0x1_0000_0000 && Pow2(64) == TWO64
  {
    assert Pow2(8) == 256;
    Pow2Add(8, 8);
    Pow2Add(16, 16);
    Pow2Add(32, 32);
  }

  // ---------------------------------------------------------------- multiplying by an odd constant

  /** Multiplying by `inverse` undoes a wrapping multiplication by `m`. */
  lemma MulUndone(x: u64, m: u64, inverse: u64)
    requires (m * inverse) % TWO64 == 1
    ensures WrapMul(WrapMul(x, m), inverse) == x
  {
    var q := x * m / TWO64;
    var t := m * inverse / TWO64;
    var p := WrapMul(x, m);
    assert p == x * m - TWO64 * q;
    assert m * inverse == TWO64 * t + 1;
    calc {
      p * inverse;
      (x * m - TWO64 * q) * inverse;
      x * m * inverse - TWO64 * q * inverse;
      { assert x * m * inverse == x * (m * inverse); }
      x * (TWO64 * t + 1) - TWO64 * q * inverse;
      { assert x * (TWO64 * t) == TWO64 * (x * t); assert TWO64 * q * inverse == TWO64 * (q * inverse); }
      x + TWO64 * (x * t) - TWO64 * (q * inverse);
      TWO64 * (x * t - q * inverse) + x;
    }
    DivUnique(p * inverse, TWO64, x * t - q * inverse, x);
  }

  lemma AddIs(a: u64, v: u64)
    ensures WrapAdd(a, v) == if a + v < TWO64 then a + v else a + v - TWO64
  {
  }

  lemma SubIs(a: u64, v: u64)
    ensures WrapSub(a, v) == if a >= v then a - v else a - v + TWO64
  {
  }

  lemma AddUndone(a: u64, v: u64)
    ensures WrapSub(WrapAdd(a, v), v) == a && WrapAdd(WrapSub(a, v), v) == a
  {
    AddIs(a, v);
    SubIs(WrapAdd(a, v), v);
    SubIs(a, v);
    AddIs(WrapSub(a, v), v);
    hide WrapAdd, WrapSub;
  }

  lemma SumInjective(a: u64, v: u64, v': u64)
    ensures WrapAdd(a, v) == WrapAdd(a, v') <==> v == v'
  {
  }

  // ---------------------------------------------------------------- xor-shift on words

  function ShiftMix(x: u64, k: nat): u64 {
    Pow2Is64();
    XorShiftBound(x, k, 64);
    XorShift(x, k)
  }

  function ShiftUnmix(y: u64, k: nat): u64
    requires k > 0
  {
    Pow2Is64();
    UnXorShiftBound(y, k, 64);
    UnXorShift(y, k)
  }

  lemma ShiftMixInverse(x: u64, k: nat)
    requires k > 0
    ensures ShiftUnmix(ShiftMix(x, k), k) == x && ShiftMix(ShiftUnmix(x, k), k) == x
  {
    XorShiftUndone(x, k);
    XorShiftDone(x, k);
  }
}
