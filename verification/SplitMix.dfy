/**
 The splitmix64 generator: the stateful form of `behavior.rs`, the indexed form `rng` of
 `fingerprint.rs`, and what connects them.
 */
module SplitMix {
  import opened Bits
  import opened Words

  const GOLDEN: u64 := 0x9e37_79b9_7f4a_7c15
  const GOLDEN_INVERSE: u64 := 0xf1de_83e1_9937_733d
  const A: u64 := 0xbf58_476d_1ce4_e5b9
  const A_INVERSE: u64 := 0x96de_1b17_3f11_9089
  const B: u64 := 0x94d0_49bb_1331_11eb
  const B_INVERSE: u64 := 0x3196_42b2_d24d_8ec3

  function Finish(x: u64): u64 {
    var y := WrapMul(ShiftMix(x, 30), A);
    var z := WrapMul(ShiftMix(y, 27), B);
    ShiftMix(z, 31)
  }

  function Unfinish(r: u64): u64 {
    var z := WrapMul(ShiftUnmix(r, 31), B_INVERSE);
    var y := WrapMul(ShiftUnmix(z, 27), A_INVERSE);
    ShiftUnmix(y, 30)
  }

  lemma FinishInverse(x: u64)
    ensures Unfinish(Finish(x)) == x && Finish(Unfinish(x)) == x
  {
    hide WrapMul, ShiftMix, ShiftUnmix;
    assert (A * A_INVERSE) % TWO64 == 1 && (B * B_INVERSE) % TWO64 == 1;
    var y := WrapMul(ShiftMix(x, 30), A);
    ShiftMixInverse(x, 30);
    MulUndone(ShiftMix(x, 30), A, A_INVERSE);
    ShiftMixInverse(y, 27);
    MulUndone(ShiftMix(y, 27), B, B_INVERSE);
    ShiftMixInverse(WrapMul(ShiftMix(y, 27), B), 31);
    var z := WrapMul(ShiftUnmix(x, 31), B_INVERSE);
    var w := WrapMul(ShiftUnmix(z, 27), A_INVERSE);
    MulUndone(ShiftUnmix(x, 31), B_INVERSE, B);
    ShiftMixInverse(x, 31);
    MulUndone(ShiftUnmix(z, 27), A_INVERSE, A);
    ShiftMixInverse(z, 27);
    ShiftMixInverse(w, 30);
  }

  /** `rng(seed, step)`. */
  function Rng(seed: u64, step: u64): u64 {
    Finish(WrapAdd(seed, WrapMul(step, GOLDEN)))
  }

  /** The three stages of splitmix64, with its constants, in unbounded arithmetic. */
  lemma RngStages(seed: u64, step: u64)
    ensures var x := (seed + step * 0x9e37_79b9_7f4a_7c15) % 0x1_0000_0000_0000_0000;
            var y := Xor(x, x / 0x4000_0000) * 0xbf58_476d_1ce4_e5b9 % 0x1_0000_0000_0000_0000;
            var z := Xor(y, y / 0x800_0000) * 0x94d0_49bb_1331_11eb % 0x1_0000_0000_0000_0000;
            Rng(seed, step) == Xor(z, z / 0x8000_0000)
  {
    hide Xor, Shr, Pow2;
    ShiftPowers();
    var x := WrapAdd(seed, WrapMul(step, GOLDEN));
    ModSums(step * GOLDEN, seed);
    ShrDivides(x, 30);
    var y := WrapMul(ShiftMix(x, 30), A);
    ShrDivides(y, 27);
    ShrDivides(WrapMul(ShiftMix(y, 27), B), 31);
  }

  lemma ShiftPowers()
    ensures Pow2(27) == 0x800_0000 && Pow2(30) == 0x4000_0000 && Pow2(31) == 0x8000_0000
  {
    Pow2Is64();
    assert Pow2(1) == 2 && Pow2(3) == 8 && Pow2(11) == 2048;
    Pow2Add(16, 11);
    Pow2Add(27, 3);
    Pow2Add(30, 1);
  }

  function SeedFor(r: u64, step: u64): u64 {
    WrapSub(Unfinish(r), WrapMul(step, GOLDEN))
  }

  /** For each step, `rng` is a permutation of the 64-bit seeds. */
  lemma RngIsPermutation(seed: u64, step: u64)
    ensures SeedFor(Rng(seed, step), step) == seed && Rng(SeedFor(seed, step), step) == seed
  {
    hide WrapMul, WrapAdd, WrapSub, Finish, Unfinish;
    FinishInverse(WrapAdd(seed, WrapMul(step, GOLDEN)));
    AddUndone(seed, WrapMul(step, GOLDEN));
    FinishInverse(seed);
    AddUndone(Unfinish(seed), WrapMul(step, GOLDEN));
  }

  /** For each seed, different steps give different values. */
  lemma RngSeparatesSteps(seed: u64, step: u64, step': u64)
    ensures Rng(seed, step) == Rng(seed, step') <==> step == step'
  {
    hide WrapMul, Finish, Unfinish;
    var p, p' := WrapMul(step, GOLDEN), WrapMul(step', GOLDEN);
    FinishInverse(WrapAdd(seed, p));
    FinishInverse(WrapAdd(seed, p'));
    SumInjective(seed, p, p');
    assert (GOLDEN * GOLDEN_INVERSE) % TWO64 == 1;
    MulUndone(step, GOLDEN, GOLDEN_INVERSE);
    MulUndone(step', GOLDEN, GOLDEN_INVERSE);
  }

  // ---------------------------------------------------------------- the stateful generator

  /** The state after `n` draws. */
  function Advance(state: u64, n: nat): u64 {
    (state + n * GOLDEN) % TWO64
  }

  lemma AdvanceOne(state: u64, n: nat)
    ensures WrapAdd(Advance(state, n), GOLDEN) == Advance(state, n + 1)
  {
    var x := state + n * GOLDEN;
    assert state + (n + 1) * GOLDEN == x + GOLDEN;
    ModSum(x, GOLDEN);
  }

  lemma ModSum(x: nat, y: u64)
    ensures (x % TWO64 + y) % TWO64 == (x + y) % TWO64
  {
  }

  lemma AdvanceAdds(state: u64, m: nat, n: nat)
    ensures Advance(Advance(state, m), n) == Advance(state, m + n)
  {
    var x, y := state + m * GOLDEN, n * GOLDEN;
    assert state + (m + n) * GOLDEN == x + y;
    DivUnique(x, TWO64, x / TWO64, x % TWO64);
    ModSums(x, y);
  }

  lemma ModSums(x: nat, y: nat)
    ensures (x % TWO64 + y) % TWO64 == (x + y) % TWO64
  {
  }

  /** The n-th draw, counting from one, is `rng` at step n. */
  lemma DrawIsRng(state: u64, n: nat)
    ensures Finish(Advance(state, n)) == Rng(state, n % TWO64)
  {
    hide Finish;
    var q, k := n / TWO64, n % TWO64;
    var c := k * GOLDEN / TWO64;
    assert k * GOLDEN == TWO64 * c + WrapMul(k, GOLDEN);
    assert n * GOLDEN == (TWO64 * q + k) * GOLDEN;
    assert (TWO64 * q + k) * GOLDEN == TWO64 * (q * GOLDEN) + k * GOLDEN;
    Shifted(state + WrapMul(k, GOLDEN), q * GOLDEN + c);
    assert TWO64 * (q * GOLDEN + c) == TWO64 * (q * GOLDEN) + TWO64 * c;
  }

  lemma Shifted(x: nat, k: nat)
    ensures (x + TWO64 * k) % TWO64 == x % TWO64
  {
    DivUnique(x + TWO64 * k, TWO64, x / TWO64 + k, x % TWO64);
  }

  /** Two draws are equal exactly when their distance is a multiple of 2^64: the period is full. */
  lemma FullPeriod(state: u64, m: nat, n: nat)
    ensures Finish(Advance(state, m)) == Finish(Advance(state, n)) <==> m % TWO64 == n % TWO64
  {
    hide Finish, Advance, Rng;
    DrawIsRng(state, m);
    DrawIsRng(state, n);
    RngSeparatesSteps(state, m % TWO64, n % TWO64);
  }

  /** The generator a simulator owns. */
  class Generator {
    var state: u64

    constructor (seed: u64)
      ensures state == seed
    {
      state := seed;
    }

    /** `splitmix64`. */
    method Next() returns (z: u64)
      modifies this
      ensures state == Advance(old(state), 1)
      ensures z == Rng(old(state), 1)
    {
      state := WrapAdd(state, GOLDEN);
      z := state;
      z := WrapMul(ShiftMix(z, 30), A);
      z := WrapMul(ShiftMix(z, 27), B);
      z := ShiftMix(z, 31);
      assert WrapMul(1, GOLDEN) == GOLDEN;
    }
  }

  /** A generator that started from `state` and has made `n` draws draws `rng(state, n + 1)` next. */
  lemma NextIsRng(state: u64, n: nat)
    ensures Rng(Advance(state, n), 1) == Rng(state, (n + 1) % TWO64)
  {
    hide Finish;
    assert WrapMul(1, GOLDEN) == GOLDEN;
    AdvanceOne(state, n);
    DrawIsRng(state, n + 1);
  }
}
