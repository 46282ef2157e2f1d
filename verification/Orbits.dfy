/** Permutations of the 64-bit words, applied over and over. */
module Orbits {
  import opened Bits
  import opened Words

  function Iterate(f: u64 -> u64, k: nat, x: u64): u64 {
    if k == 0 then x else f(Iterate(f, k - 1, x))
  }

  ghost predicate Injective(f: u64 -> u64) {
    forall x: u64, y: u64 :: f(x) == f(y) ==> x == y
  }

  function Factorial(n: nat): nat {
    if n == 0 then 1 else n * Factorial(n - 1)
  }

  lemma {:induction false} FactorialPositive(n: nat)
    ensures Factorial(n) > 0
  {
    if n > 0 { FactorialPositive(n - 1); }
  }

  /** Every number from 1 to n divides n!. */
  lemma {:induction false} Divides(p: nat, n: nat) returns (q: nat)
    requires 0 < p <= n
    ensures Factorial(n) == p * q
  {
    if p == n {
      q := Factorial(n - 1);
    } else {
      var r := Divides(p, n - 1);
      q := n * r;
      assert n * (p * r) == p * (n * r);
    }
  }

  lemma {:induction false} IterateAdds(f: u64 -> u64, j: nat, k: nat, x: u64)
    ensures Iterate(f, j + k, x) == Iterate(f, j, Iterate(f, k, x))
  {
    if j > 0 { IterateAdds(f, j - 1, k, x); }
  }

  lemma {:induction false} IterateMultiple(f: u64 -> u64, p: nat, q: nat, x: u64)
    requires Iterate(f, p, x) == x
    ensures Iterate(f, p * q, x) == x
  {
    if q > 0 {
      IterateMultiple(f, p, q - 1, x);
      assert p * q == p + p * (q - 1);
      IterateAdds(f, p, p * (q - 1), x);
    } else {
      assert p * q == 0;
    }
  }

  /** What comes after j more steps determines what was there. */
  lemma {:induction false} IterateInjective(f: u64 -> u64, j: nat, x: u64, y: u64)
    requires Injective(f)
    requires Iterate(f, j, x) == Iterate(f, j, y)
    ensures x == y
  {
    if j > 0 { IterateInjective(f, j - 1, x, y); }
  }

  /** The first `k` words of an orbit. */
  ghost function Orbit(f: u64 -> u64, k: nat, x: u64): set<nat> {
    if k == 0 then {} else Orbit(f, k - 1, x) + {Iterate(f, k - 1, x)}
  }

  lemma {:induction false} InOrbit(f: u64 -> u64, k: nat, x: u64, y: nat) returns (j: nat)
    requires y in Orbit(f, k, x)
    ensures j < k && Iterate(f, j, x) == y
  {
    if y in Orbit(f, k - 1, x) {
      j := InOrbit(f, k - 1, x, y);
    } else {
      j := k - 1;
    }
  }

  lemma {:induction false} Fits(s: set<nat>, n: nat)
    requires forall v :: v in s ==> v < n
    ensures |s| <= n
  {
    if n == 0 {
      assert s == {};
    } else {
      Fits(s - {n - 1}, n - 1);
    }
  }

  /** An orbit without a repetition grows by one word a step. */
  lemma {:induction false} OrbitGrows(f: u64 -> u64, k: nat, x: u64)
    requires forall p :: 0 < p < k ==> Iterate(f, p, x) != x
    requires Injective(f)
    ensures |Orbit(f, k, x)| == k && forall v :: v in Orbit(f, k, x) ==> v < TWO64
  {
    hide Injective;
    if k > 0 {
      OrbitGrows(f, k - 1, x);
      var y := Iterate(f, k - 1, x);
      if y in Orbit(f, k - 1, x) {
        var j := InOrbit(f, k - 1, x, y);
        IterateAdds(f, j, k - 1 - j, x);
        IterateInjective(f, j, x, Iterate(f, k - 1 - j, x));
      }
    }
  }

  /** An injective function on `n` words brings every word back within `n` steps. */
  lemma Period(f: u64 -> u64, n: nat, x: u64) returns (p: nat)
    requires n == TWO64 && Injective(f)
    ensures 0 < p <= n && Iterate(f, p, x) == x
  {
    hide Injective, Orbit;
    if forall k :: 0 < k < n + 1 ==> Iterate(f, k, x) != x {
      OrbitGrows(f, n + 1, x);
      Fits(Orbit(f, n + 1, x), n);
    }
    p :| 0 < p < n + 1 && Iterate(f, p, x) == x;
  }

  /** After n! steps every word is back, whatever its own period. */
  lemma PermutationReturns(f: u64 -> u64, n: nat, x: u64)
    requires n == TWO64 && Injective(f)
    ensures Iterate(f, Factorial(n), x) == x
  {
    hide Factorial, Injective;
    var p := Period(f, n, x);
    var q := Divides(p, n);
    IterateMultiple(f, p, q, x);
  }
}
