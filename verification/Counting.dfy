/** How many numbers of a range fall on given residues, and why a bijection preserves such counts. */
module Counting {
  import opened Bits

  function Clamp(x: int, lo: int, hi: int): int {
    if x < lo then lo else if x > hi then hi else x
  }

  predicate IsOn(v: nat, m: nat, lo: nat, hi: nat)
    requires m > 0
  {
    lo <= v % m < hi
  }

  ghost function OnResidues(n: nat, m: nat, lo: nat, hi: nat): set<nat>
    requires m > 0
  {
    set v: nat | 0 <= v < n && IsOn(v, m, lo, hi)
  }

  lemma DivNext(n: nat, m: nat)
    requires m > 0
    ensures n % m + 1 < m ==> (n + 1) / m == n / m && (n + 1) % m == n % m + 1
    ensures n % m + 1 == m ==> (n + 1) / m == n / m + 1 && (n + 1) % m == 0
  {
    var q, r := n / m, n % m;
    assert n == m * q + r;
    if r + 1 < m {
      DivUnique(n + 1, m, q, r + 1);
    } else {
      assert n + 1 == m * (q + 1);
      DivUnique(n + 1, m, q + 1, 0);
    }
  }

  lemma OneMore(n: nat, m: nat, lo: nat, hi: nat)
    requires m > 0
    ensures |OnResidues(n + 1, m, lo, hi)| == |OnResidues(n, m, lo, hi)| + if IsOn(n, m, lo, hi) then 1 else 0
  {
    hide IsOn;
    if IsOn(n, m, lo, hi) {
      assert OnResidues(n + 1, m, lo, hi) == OnResidues(n, m, lo, hi) + {n};
    } else {
      assert OnResidues(n + 1, m, lo, hi) == OnResidues(n, m, lo, hi);
    }
  }

  lemma NextShare(width: nat, q: nat)
    ensures width * (q + 1) == width * q + width
  {
  }

  /** Below n = q m + r, the residues from `lo` to `hi` occur q times each, and once more if below r. */
  lemma {:induction false} ResidueCount(n: nat, m: nat, lo: nat, hi: nat)
    requires m > 0 && lo <= hi <= m
    ensures |OnResidues(n, m, lo, hi)| == (hi - lo) * (n / m) + Clamp(n % m - lo, 0, hi - lo)
  {
    if n == 0 {
      DivUnique(0, m, 0, 0);
      assert OnResidues(0, m, lo, hi) == {};
    } else {
      var k := n - 1;
      ResidueCount(k, m, lo, hi);
      OneMore(k, m, lo, hi);
      DivNext(k, m);
      NextShare(hi - lo, k / m);
      hide OnResidues;
    }
  }

  /** Sets related by a pair of inverse functions have the same size. */
  lemma {:induction false} SameSize(s: set<nat>, t: set<nat>, f: nat -> nat, g: nat -> nat)
    requires forall x :: x in s ==> f(x) in t && g(f(x)) == x
    requires forall y :: y in t ==> g(y) in s && f(g(y)) == y
    ensures |s| == |t|
    decreases s
  {
    if s != {} {
      var x :| x in s;
      SameSize(s - {x}, t - {f(x)}, f, g);
    }
  }
}
