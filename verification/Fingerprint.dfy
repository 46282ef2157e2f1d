/** Weighted choices driven by the seeded generator: how many of the 2^64 seeds give each outcome. */
module Fingerprint {
  import opened Words
  import opened SplitMix
  import opened Counting

  datatype DeviceProfile = DesktopWindows | DesktopMac | DesktopLinux | MobileAndroid | MobileIOS

  datatype BrowserKind = Chrome | Edge | Safari | Firefox

  /** `DeviceProfile::random_weighted`. */
  function RandomWeighted(seed: u64): DeviceProfile {
    var v := Rng(seed, 97) % 100;
    if v <= 69 then DesktopWindows else if 70 <= v <= 89 then DesktopMac else DesktopLinux
  }

  /** `BrowserKind::for_device`. */
  function ForDevice(device: DeviceProfile, seed: u64): BrowserKind {
    match device
    case MobileIOS => Safari
    case MobileAndroid => if Rng(seed, 201) % 100 < 90 then Chrome else Firefox
    case DesktopMac =>
      var v := Rng(seed, 201) % 100;
      if v <= 55 then Chrome else if 56 <= v <= 91 then Safari else Firefox
    case _ =>
      var v := Rng(seed, 201) % 100;
      if v <= 64 then Chrome else if 65 <= v <= 80 then Edge else Firefox
  }

  /** `pick`: `default` stands for `T::default()`, and `usize` has 64 bits. */
  function Pick<T>(items: seq<T>, entropy: u64, default: T): T {
    var n := if |items| == 0 then 1 else |items|;
    var idx := entropy % n;
    if idx < |items| then items[idx] else default
  }

  ghost function SeedsOnResidues(step: u64, m: nat, lo: nat, hi: nat): set<nat>
    requires m > 0
  {
    set seed: nat | 0 <= seed < TWO64 && lo <= Rng(seed, step) % m < hi
  }

  /** `rng` being a permutation, residues of its values are hit exactly as often as residues of 0 .. 2^64. */
  lemma SeedCount(step: u64, m: nat, lo: nat, hi: nat)
    requires m > 0 && lo <= hi <= m
    ensures |SeedsOnResidues(step, m, lo, hi)| == (hi - lo) * (TWO64 / m) + Clamp(TWO64 % m - lo, 0, hi - lo)
  {
    hide Rng, SeedFor;
    var f := (x: nat) => if x < TWO64 then Rng(x, step) else x;
    var g := (y: nat) => if y < TWO64 then SeedFor(y, step) else y;
    var s, t := SeedsOnResidues(step, m, lo, hi), OnResidues(TWO64, m, lo, hi);
    forall x | x in s ensures f(x) in t && g(f(x)) == x {
      RngIsPermutation(x, step);
    }
    forall y | y in t ensures g(y) in s && f(g(y)) == y {
      RngIsPermutation(y, step);
    }
    SameSize(s, t, f, g);
    ResidueCount(TWO64, m, lo, hi);
  }

  const K: nat := TWO64 / 100

  ghost function SeedsOf(device: DeviceProfile): set<nat> {
    set seed: nat | 0 <= seed < TWO64 && RandomWeighted(seed) == device
  }

  /** Of the 2^64 = 100 K + 16 seeds, exactly 70 K + 16 give Windows, 20 K macOS, 10 K Linux, and none a phone. */
  lemma DeviceWeights()
    ensures TWO64 == 100 * K + 16
    ensures SeedsOf(DesktopWindows) == SeedsOnResidues(97, 100, 0, 70)
    ensures SeedsOf(DesktopMac) == SeedsOnResidues(97, 100, 70, 90)
    ensures SeedsOf(DesktopLinux) == SeedsOnResidues(97, 100, 90, 100)
    ensures |SeedsOf(DesktopWindows)| == 70 * K + 16
    ensures |SeedsOf(DesktopMac)| == 20 * K
    ensures |SeedsOf(DesktopLinux)| == 10 * K
    ensures SeedsOf(MobileAndroid) == {} && SeedsOf(MobileIOS) == {}
  {
    hide Rng;
    SeedCount(97, 100, 0, 70);
    SeedCount(97, 100, 70, 90);
    SeedCount(97, 100, 90, 100);
  }

  ghost function SeedsOfKind(device: DeviceProfile, kind: BrowserKind): set<nat> {
    set seed: nat | 0 <= seed < TWO64 && ForDevice(device, seed) == kind
  }

  /** The documented market shares on Windows and Linux, as exact counts of seeds. */
  lemma DesktopWeights(d: DeviceProfile)
    requires d == DesktopWindows || d == DesktopLinux
    ensures SeedsOfKind(d, Chrome) == SeedsOnResidues(201, 100, 0, 65)
    ensures SeedsOfKind(d, Edge) == SeedsOnResidues(201, 100, 65, 81)
    ensures SeedsOfKind(d, Firefox) == SeedsOnResidues(201, 100, 81, 100)
    ensures |SeedsOfKind(d, Chrome)| == 65 * K + 16 && |SeedsOfKind(d, Edge)| == 16 * K
    ensures |SeedsOfKind(d, Firefox)| == 19 * K && SeedsOfKind(d, Safari) == {}
  {
    hide Rng;
    SeedCount(201, 100, 0, 65);
    SeedCount(201, 100, 65, 81);
    SeedCount(201, 100, 81, 100);
  }

  /** The documented market shares on macOS. */
  lemma MacWeights()
    ensures SeedsOfKind(DesktopMac, Chrome) == SeedsOnResidues(201, 100, 0, 56)
    ensures SeedsOfKind(DesktopMac, Safari) == SeedsOnResidues(201, 100, 56, 92)
    ensures SeedsOfKind(DesktopMac, Firefox) == SeedsOnResidues(201, 100, 92, 100)
    ensures |SeedsOfKind(DesktopMac, Chrome)| == 56 * K + 16 && |SeedsOfKind(DesktopMac, Safari)| == 36 * K
    ensures |SeedsOfKind(DesktopMac, Firefox)| == 8 * K && SeedsOfKind(DesktopMac, Edge) == {}
  {
    hide Rng;
    SeedCount(201, 100, 0, 56);
    SeedCount(201, 100, 56, 92);
    SeedCount(201, 100, 92, 100);
  }

  /** The documented market shares on phones. */
  lemma PhoneWeights()
    ensures SeedsOfKind(MobileAndroid, Chrome) == SeedsOnResidues(201, 100, 0, 90)
    ensures SeedsOfKind(MobileAndroid, Firefox) == SeedsOnResidues(201, 100, 90, 100)
    ensures |SeedsOfKind(MobileAndroid, Chrome)| == 90 * K + 16 && |SeedsOfKind(MobileAndroid, Firefox)| == 10 * K
    ensures |SeedsOfKind(MobileIOS, Safari)| == TWO64
  {
    hide Rng;
    SeedCount(201, 100, 0, 90);
    SeedCount(201, 100, 90, 100);
    SeedCount(201, 1, 0, 1);
    assert SeedsOfKind(MobileIOS, Safari) == SeedsOnResidues(201, 1, 0, 1);
  }

  ghost function SeedsPicking(n: nat, step: u64, i: nat): set<nat>
    requires i < n
  {
    set seed: nat | 0 <= seed < TWO64 && Pick(seq(n, k => k), Rng(seed, step), n) == i
  }

  /** `pick` over `rng` is as even as it can be: every position gets 2^64 / n seeds, the first 2^64 mod n one more. */
  lemma PickIsEven(n: nat, step: u64, i: nat)
    requires i < n
    ensures SeedsPicking(n, step, i) == SeedsOnResidues(step, n, i, i + 1)
    ensures |SeedsPicking(n, step, i)| == TWO64 / n + (if i < TWO64 % n then 1 else 0)
  {
    hide Rng;
    SeedCount(step, n, i, i + 1);
    forall seed: nat | seed < TWO64
      ensures Pick(seq(n, k => k), Rng(seed, step), n) == i <==> i <= Rng(seed, step) % n < i + 1
    {
    }
  }
}
