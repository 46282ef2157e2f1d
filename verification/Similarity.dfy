/** Scoring how alike two DOM elements are: a merge of sorted name lists, and a weighted sum. */
module Similarity {
  import opened Unicode

  /** A Rust string as its UTF-8 bytes, which is what `str::cmp` compares. */
  type Name = seq<nat>

  datatype Ordering = Less | Equal | Greater

  /** Lexicographic comparison, of bytes by Rust and of UTF-16 code units by JavaScript's `sort`. */
  function Compare(a: seq<nat>, b: seq<nat>): Ordering {
    if a == [] || b == [] then
      if a == b then Equal else if a == [] then Less else Greater
    else if a[0] != b[0] then
      if a[0] < b[0] then Less else Greater
    else Compare(a[1..], b[1..])
  }

  predicate Precedes(a: Name, b: Name) {
    Compare(a, b) != Greater
  }

  lemma {:induction false} CompareFlips(a: Name, b: Name)
    ensures Compare(a, b) == Equal <==> a == b
    ensures Compare(a, b) == Less <==> Compare(b, a) == Greater
    ensures Compare(a, b) == Greater <==> Compare(b, a) == Less
  {
    if a != [] && b != [] && a[0] == b[0] {
      assert a == [a[0]] + a[1..] && b == [b[0]] + b[1..];
      CompareFlips(a[1..], b[1..]);
    }
  }

  predicate Sorted(names: seq<Name>) {
    forall i, j :: 0 <= i < j < |names| ==> Precedes(names[i], names[j])
  }

  /** How many pairs of equal names the merge finds. */
  function Common(a: seq<Name>, b: seq<Name>): (n: nat)
    ensures n <= |a| && n <= |b|
  {
    if a == [] || b == [] then 0
    else match Compare(a[0], b[0])
      case Equal => 1 + Common(a[1..], b[1..])
      case Less => Common(a[1..], b)
      case Greater => Common(a, b[1..])
  }

  lemma {:induction false} CommonCommutes(a: seq<Name>, b: seq<Name>)
    ensures Common(a, b) == Common(b, a)
  {
    if a != [] && b != [] {
      CompareFlips(a[0], b[0]);
      match Compare(a[0], b[0])
      case Equal => CommonCommutes(a[1..], b[1..]);
      case Less => CommonCommutes(a[1..], b);
      case Greater => CommonCommutes(a, b[1..]);
    }
  }

  /** Only equal lists are matched from end to end, sorted or not. */
  lemma {:induction false} AllCommonIffEqual(a: seq<Name>, b: seq<Name>)
    ensures Common(a, b) == |a| == |b| <==> a == b
  {
    if a != [] && b != [] {
      CompareFlips(a[0], b[0]);
      if Compare(a[0], b[0]) == Equal {
        assert a == [a[0]] + a[1..] && b == [b[0]] + b[1..];
        AllCommonIffEqual(a[1..], b[1..]);
      }
    }
  }

  lemma SortedHead(x: Name, b: seq<Name>)
    requires b != [] && Sorted(b) && Compare(x, b[0]) == Less
    ensures x !in b
  {
    CompareFlips(x, b[0]);
    forall k | 0 <= k < |b| ensures b[k] != x {
      assert k == 0 || Precedes(b[0], b[k]);
    }
  }

  lemma SkipAbsent<T>(x: T, m: multiset<T>, n: multiset<T>)
    requires x !in n
    ensures (multiset{x} + m) * n == m * n
  {
  }

  lemma MatchShared<T>(x: T, m: multiset<T>, n: multiset<T>)
    ensures (multiset{x} + m) * (multiset{x} + n) == multiset{x} + m * n
  {
  }

  lemma SplitHead<T>(s: seq<T>)
    requires s != []
    ensures multiset(s) == multiset{s[0]} + multiset(s[1..])
  {
    assert s == [s[0]] + s[1..];
  }

  /** On sorted lists the merge counts the multiset intersection. */
  lemma {:induction false} CommonIsIntersection(a: seq<Name>, b: seq<Name>)
    requires Sorted(a) && Sorted(b)
    ensures Common(a, b) == |multiset(a) * multiset(b)|
  {
    if a == [] || b == [] {
      assert multiset(a) * multiset(b) == multiset{};
    } else {
      SplitHead(a);
      SplitHead(b);
      CompareFlips(a[0], b[0]);
      match Compare(a[0], b[0])
      case Equal =>
        MatchShared(a[0], multiset(a[1..]), multiset(b[1..]));
        CommonIsIntersection(a[1..], b[1..]);
      case Less =>
        SortedHead(a[0], b);
        SkipAbsent(a[0], multiset(a[1..]), multiset(b));
        CommonIsIntersection(a[1..], b);
      case Greater =>
        SortedHead(b[0], a);
        SkipAbsent(b[0], multiset(b[1..]), multiset(a));
        assert multiset(a) * multiset(b) == multiset(b) * multiset(a);
        assert multiset(a) * multiset(b[1..]) == multiset(b[1..]) * multiset(a);
        CommonIsIntersection(a, b[1..]);
    }
  }

  const U16_MAX: nat := 65535

  /** `u16::try_from(n).unwrap_or(u16::MAX)`. */
  function Clamped(n: nat): nat {
    if n <= U16_MAX then n else U16_MAX
  }

  function Jaccard(a: seq<Name>, b: seq<Name>): real {
    if a == [] && b == [] then 1.0
    else Clamped(Common(a, b)) as real / Clamped(|a| + |b| - Common(a, b)) as real
  }

  /** `jaccard_sets`. */
  method JaccardSets(a: seq<Name>, b: seq<Name>) returns (score: real)
    ensures score == Jaccard(a, b)
  {
    if |a| == 0 && |b| == 0 {
      return 1.0;
    }
    var intersection: nat := 0;
    var i, j := 0, 0;
    while i < |a| && j < |b|
      invariant i <= |a| && j <= |b|
      invariant intersection + Common(a[i..], b[j..]) == Common(a, b)
    {
      match Compare(a[i], b[j]) {
        case Equal =>
          intersection := intersection + 1;
          i := i + 1;
          j := j + 1;
        case Less => i := i + 1;
        case Greater => j := j + 1;
      }
    }
    assert Common(a[i..], b[j..]) == 0;
    var union := |a| + |b| - intersection;
    score := Clamped(intersection) as real / Clamped(union) as real;
  }

  lemma PositiveProduct(a: real, b: real)
    requires a > 0.0 && b > 0.0
    ensures a * b > 0.0
  {
  }

  lemma Ratio(n: nat, d: nat)
    requires 0 < d && n <= d
    ensures 0.0 <= n as real / d as real <= 1.0
    ensures n as real / d as real == 1.0 <==> n == d
  {
    var x, y := n as real, d as real;
    var q := x / y;
    assert q * y == x;
    if q < 0.0 {
      PositiveProduct(-q, y);
    } else if q > 1.0 {
      PositiveProduct(q - 1.0, y);
    } else if q < 1.0 {
      PositiveProduct(1.0 - q, y);
    }
  }

  /**
   The list score is symmetric and lies in [0, 1]. It is 1 for equal lists, and for no others as
   long as fewer than 65535 names are matched: from there on both counts are cut to 65535.
   */
  lemma JaccardLaws(a: seq<Name>, b: seq<Name>)
    ensures Jaccard(a, b) == Jaccard(b, a)
    ensures 0.0 <= Jaccard(a, b) <= 1.0
    ensures Jaccard(a, b) == 1.0 <==> a == b || Common(a, b) >= U16_MAX
  {
    CommonCommutes(a, b);
    AllCommonIffEqual(a, b);
    if a != [] || b != [] {
      var i, u := Common(a, b), |a| + |b| - Common(a, b);
      assert i <= u && (i == u <==> i == |a| == |b|);
      Ratio(Clamped(i), Clamped(u));
    }
  }

  /** For sorted lists without clamping the score is |intersection| / |union|, as multisets. */
  lemma JaccardIsIntersectionOverUnion(a: seq<Name>, b: seq<Name>)
    requires Sorted(a) && Sorted(b) && |a| + |b| <= U16_MAX
    ensures var i := multiset(a) * multiset(b);
            var u := multiset(a) + multiset(b) - i;
            && (forall x :: u[x] == if multiset(a)[x] >= multiset(b)[x] then multiset(a)[x] else multiset(b)[x])
            && (a != [] || b != [] ==> |u| > 0 && Jaccard(a, b) == |i| as real / |u| as real)
  {
    CommonIsIntersection(a, b);
    UnionSize(multiset(a), multiset(b));
    if a != [] || b != [] {
      NotClamped(a, b);
    }
    hide Jaccard, Common, Sorted;
  }

  /** From 65535 names in the union on, the score is what is shared, up to 65535, out of 65535. */
  lemma JaccardIsClamped(a: seq<Name>, b: seq<Name>)
    requires |a| + |b| - Common(a, b) >= U16_MAX
    ensures Jaccard(a, b) * 65535.0 == (if Common(a, b) <= 65535 then Common(a, b) else 65535) as real
  {
    hide Common;
    assert Clamped(|a| + |b| - Common(a, b)) == 65535;
    assert Jaccard(a, b) == Clamped(Common(a, b)) as real / 65535.0;
  }

  lemma NotClamped(a: seq<Name>, b: seq<Name>)
    requires |a| + |b| <= U16_MAX && (a != [] || b != [])
    ensures |a| + |b| - Common(a, b) > 0
    ensures Jaccard(a, b) == Common(a, b) as real / (|a| + |b| - Common(a, b)) as real
  {
    hide Common;
  }

  /** Sum minus intersection is the union: every element as often as in the list that has it more often. */
  lemma UnionSize<T>(m: multiset<T>, n: multiset<T>)
    ensures var u := m + n - m * n;
            && (forall x :: u[x] == if m[x] >= n[x] then m[x] else n[x])
            && |u| == |m| + |n| - |m * n|
  {
    assert m + n == (m + n - m * n) + m * n;
  }

  // ---------------------------------------------------------------- the weighted score

  datatype ElementFingerprint = ElementFingerprint(tag: Name, classes: seq<Name>, attrNames: seq<Name>, depth: nat)

  function DepthScore(a: nat, b: nat): real {
    var p, q := Clamped(a), Clamped(b);
    1.0 / (1.0 + (if p >= q then p - q else q - p) as real)
  }

  /** `jaccard_weighted`. */
  function JaccardWeighted(reference: ElementFingerprint, candidate: ElementFingerprint): real {
    var tagScore := if reference.tag == candidate.tag then 1.0 else 0.0;
    var classScore := Jaccard(reference.classes, candidate.classes);
    var attrScore := Jaccard(reference.attrNames, candidate.attrNames);
    DepthScore(reference.depth, candidate.depth) * 0.1 + (attrScore * 0.15 + (tagScore * 0.4 + classScore * 0.35))
  }

  lemma DepthScoreLaws(a: nat, b: nat)
    ensures DepthScore(a, b) == DepthScore(b, a)
    ensures 0.0 < DepthScore(a, b) <= 1.0
    ensures DepthScore(a, b) == 1.0 <==> a == b || (a >= U16_MAX && b >= U16_MAX)
  {
    var p, q := Clamped(a), Clamped(b);
    var d: nat := if p >= q then p - q else q - p;
    Ratio(1, 1 + d);
    assert (1 + d) as real == 1.0 + d as real;
    assert DepthScore(a, b) * (1.0 + d as real) == 1.0;
  }

  /** Depths weigh by one over one more than their distance. */
  lemma DepthScoreIs(a: nat, b: nat)
    ensures a <= b <= U16_MAX ==> DepthScore(a, b) * (1 + b - a) as real == 1.0
    ensures a > U16_MAX ==> DepthScore(a, b) == DepthScore(U16_MAX, b)
  {
    if a <= b <= U16_MAX {
      var d := b - a;
      assert (1 + d) as real == 1.0 + d as real;
      assert DepthScore(a, b) == 1.0 / (1.0 + d as real);
      Reciprocal(1.0 + d as real);
    }
  }

  lemma Reciprocal(x: real)
    requires x > 0.0
    ensures 1.0 / x * x == 1.0
  {
  }

  /**
   What each part contributes, everything else being the same: a tag that fits 0.4; classes, attribute
   names and depth 0.35, 0.15 and 0.1 of what their own scores differ by.
   */
  lemma PartsWeigh(r: ElementFingerprint, c: ElementFingerprint, classes: seq<Name>, attrNames: seq<Name>,
                   depth: nat, tag: Name)
    ensures JaccardWeighted(r, c.(classes := classes)) - JaccardWeighted(r, c)
         == 0.35 * (Jaccard(r.classes, classes) - Jaccard(r.classes, c.classes))
    ensures JaccardWeighted(r, c.(attrNames := attrNames)) - JaccardWeighted(r, c)
         == 0.15 * (Jaccard(r.attrNames, attrNames) - Jaccard(r.attrNames, c.attrNames))
    ensures JaccardWeighted(r, c.(depth := depth)) - JaccardWeighted(r, c)
         == 0.1 * (DepthScore(r.depth, depth) - DepthScore(r.depth, c.depth))
    ensures c.tag != r.tag ==> JaccardWeighted(r, c.(tag := r.tag)) - JaccardWeighted(r, c) == 0.4
    ensures c.tag != r.tag && tag != r.tag ==> JaccardWeighted(r, c.(tag := tag)) == JaccardWeighted(r, c)
  {
    hide Jaccard, DepthScore;
  }

  predicate SameNames(a: seq<Name>, b: seq<Name>) {
    a == b || Common(a, b) >= U16_MAX
  }

  /**
   The score is symmetric, lies in (0, 1], is 1 exactly for fingerprints equal up to the clamping
   of counts and depths, and at the default threshold 0.7 nothing with another tag passes.
   */
  lemma WeightedLaws(r: ElementFingerprint, c: ElementFingerprint)
    ensures JaccardWeighted(r, c) == JaccardWeighted(c, r)
    ensures 0.0 < JaccardWeighted(r, c) <= 1.0
    ensures JaccardWeighted(r, c) == 1.0 <==>
            && r.tag == c.tag
            && SameNames(r.classes, c.classes)
            && SameNames(r.attrNames, c.attrNames)
            && (r.depth == c.depth || (r.depth >= U16_MAX && c.depth >= U16_MAX))
    ensures JaccardWeighted(r, c) >= 0.7 ==> r.tag == c.tag
  {
    JaccardLaws(r.classes, c.classes);
    JaccardLaws(r.attrNames, c.attrNames);
    DepthScoreLaws(r.depth, c.depth);
    hide Jaccard, DepthScore, Common;
  }

  // ---------------------------------------------------------------- the order the lists arrive in

  lemma {:induction false} CompareSkips(p: seq<nat>, a: seq<nat>, b: seq<nat>)
    ensures Compare(p + a, p + b) == Compare(a, b)
  {
    if p == [] {
      assert p + a == a && p + b == b;
    } else {
      assert (p + a)[1..] == p[1..] + a && (p + b)[1..] == p[1..] + b;
      CompareSkips(p[1..], a, b);
    }
  }

  /** UTF-8 preserves the order of code points, whatever follows. */
  lemma Utf8Order(c: char, d: char, x: seq<nat>, y: seq<nat>)
    requires c < d
    ensures Compare(Utf8(c) + x, Utf8(d) + y) == Less
  {
    var k := Utf8Differ(c, d);
    var a, b := Utf8(c) + x, Utf8(d) + y;
    assert a[..k] == Utf8(c)[..k] && b[..k] == Utf8(d)[..k] && a[k] == Utf8(c)[k] && b[k] == Utf8(d)[k];
    hide Utf8;
    FirstDifference(a, b, k);
  }

  /** The byte at which the encodings of two characters part. */
  lemma Utf8Differ(c: char, d: char) returns (k: nat)
    requires c < d
    ensures k < |Utf8(c)| && k < |Utf8(d)| && Utf8(c)[..k] == Utf8(d)[..k] && Utf8(c)[k] < Utf8(d)[k]
  {
    if |Utf8(c)| < |Utf8(d)| || |Utf8(c)| == 1 {
      k := 0;
    } else if |Utf8(c)| == 2 {
      k := Differ2(c, d);
    } else if |Utf8(c)| == 3 {
      k := Differ3(c, d);
    } else {
      k := Differ4(c, d);
    }
  }

  lemma Differ2(c: char, d: char) returns (k: nat)
    requires c < d && |Utf8(c)| == |Utf8(d)| == 2
    ensures k < 2 && Utf8(c)[..k] == Utf8(d)[..k] && Utf8(c)[k] < Utf8(d)[k]
  {
    var v, w := c as int, d as int;
    LowerSextets(v, w);
    k := if v / 0x40 < w / 0x40 then 0 else 1;
    SameUpTo(Utf8(c), Utf8(d), k);
  }

  lemma Differ3(c: char, d: char) returns (k: nat)
    requires c < d && |Utf8(c)| == |Utf8(d)| == 3
    ensures k < 3 && Utf8(c)[..k] == Utf8(d)[..k] && Utf8(c)[k] < Utf8(d)[k]
  {
    var v, w := c as int, d as int;
    LowerSextets(v, w);
    k := if v / 0x1000 < w / 0x1000 then 0 else if v / 0x40 < w / 0x40 then 1 else 2;
    SameUpTo(Utf8(c), Utf8(d), k);
  }

  lemma Differ4(c: char, d: char) returns (k: nat)
    requires c < d && |Utf8(c)| == |Utf8(d)| == 4
    ensures k < 4 && Utf8(c)[..k] == Utf8(d)[..k] && Utf8(c)[k] < Utf8(d)[k]
  {
    var v, w := c as int, d as int;
    LowerSextets(v, w);
    k := if v / 0x4_0000 < w / 0x4_0000 then 0 else
         if v / 0x1000 < w / 0x1000 then 1 else if v / 0x40 < w / 0x40 then 2 else 3;
    SameUpTo(Utf8(c), Utf8(d), k);
  }

  lemma SameUpTo(p: seq<nat>, q: seq<nat>, k: nat)
    requires k <= |p| && k <= |q| && k <= 3
    requires (k > 0 ==> p[0] == q[0]) && (k > 1 ==> p[1] == q[1]) && (k > 2 ==> p[2] == q[2])
    ensures p[..k] == q[..k]
  {
  }

  lemma LowerSextets(v: nat, w: nat)
    requires v < w
    ensures v / 0x40 < w / 0x40 || (v / 0x40 == w / 0x40 && v % 0x40 < w % 0x40)
    ensures v / 0x1000 < w / 0x1000 || (v / 0x1000 == w / 0x1000 && v / 0x40 % 0x40 <= w / 0x40 % 0x40)
    ensures v / 0x1000 < w / 0x1000 || v / 0x40 == w / 0x40 || v / 0x40 % 0x40 < w / 0x40 % 0x40
    ensures v / 0x4_0000 < w / 0x4_0000 || (v / 0x4_0000 == w / 0x4_0000 && v / 0x1000 % 0x40 <= w / 0x1000 % 0x40)
    ensures v / 0x4_0000 < w / 0x4_0000 || v / 0x1000 == w / 0x1000 || v / 0x1000 % 0x40 < w / 0x1000 % 0x40
  {
    LowerSextet(v, w);
    if v / 0x40 < w / 0x40 {
      LowerSextet(v / 0x40, w / 0x40);
      assert v / 0x40 / 0x40 == v / 0x1000 && w / 0x40 / 0x40 == w / 0x1000;
    }
    if v / 0x1000 < w / 0x1000 {
      LowerSextet(v / 0x1000, w / 0x1000);
      assert v / 0x1000 / 0x40 == v / 0x4_0000 && w / 0x1000 / 0x40 == w / 0x4_0000;
    }
  }

  lemma LowerSextet(v: nat, w: nat)
    requires v < w
    ensures v / 0x40 < w / 0x40 || (v / 0x40 == w / 0x40 && v % 0x40 < w % 0x40)
  {
  }

  lemma {:induction false} FirstDifference(a: seq<nat>, b: seq<nat>, k: nat)
    requires k < |a| && k < |b| && a[..k] == b[..k] && a[k] != b[k]
    ensures Compare(a, b) == if a[k] < b[k] then Less else Greater
  {
    assert a == a[..k] + a[k..] && b == b[..k] + b[k..];
    CompareSkips(a[..k], a[k..], b[k..]);
  }

  /** A supplementary character against one above the surrogates: UTF-16 puts them the other way round. */
  predicate Swapped(c: char, d: char) {
    (c >= '\U{10000}' && '\U{E000}' <= d < '\U{10000}') || (d >= '\U{10000}' && '\U{E000}' <= c < '\U{10000}')
  }

  lemma Utf16Order(c: char, d: char, x: seq<nat>, y: seq<nat>)
    requires c < d
    ensures Compare(Utf16(c) + x, Utf16(d) + y) == if Swapped(c, d) then Greater else Less
  {
    var p, q := Utf16(c), Utf16(d);
    FirstDifference(p + x, q + y, if p[0] != q[0] then 0 else 1);
  }

  /** Where two strings first differ. */
  function Agreed(s: string, t: string): (k: nat)
    ensures k <= |s| && k <= |t| && s[..k] == t[..k]
    ensures k < |s| && k < |t| ==> s[k] != t[k]
  {
    if s == [] || t == [] || s[0] != t[0] then 0
    else
      var k := 1 + Agreed(s[1..], t[1..]);
      assert s[..k] == [s[0]] + s[1..][..k - 1] && t[..k] == [t[0]] + t[1..][..k - 1];
      assert k < |s| && k < |t| ==> s[k] == s[1..][k - 1] && t[k] == t[1..][k - 1];
      k
  }

  /** The strings first differ in two swapped characters. */
  predicate Clash(s: string, t: string) {
    var k := Agreed(s, t);
    k < |s| && k < |t| && Swapped(s[k], t[k])
  }

  /** Only what follows the common part of two strings decides, in either order. */
  lemma TailsDecide(s: string, t: string)
    ensures var k := Agreed(s, t);
            && Compare(Utf8Bytes(s), Utf8Bytes(t)) == Compare(Utf8Bytes(s[k..]), Utf8Bytes(t[k..]))
            && Compare(Utf16Units(s), Utf16Units(t)) == Compare(Utf16Units(s[k..]), Utf16Units(t[k..]))
  {
    hide Compare, Agreed, Utf8Bytes, Utf16Units;
    var k := Agreed(s, t);
    var p, a, b := s[..k], s[k..], t[k..];
    assert s == p + a && t == p + b;
    BytesAppend(p, a);
    BytesAppend(p, b);
    UnitsAppend(p, a);
    UnitsAppend(p, b);
    CompareSkips(Utf8Bytes(p), Utf8Bytes(a), Utf8Bytes(b));
    CompareSkips(Utf16Units(p), Utf16Units(a), Utf16Units(b));
  }

  /**
   The lists are sorted by JavaScript, by UTF-16 code units, and merged by Rust, by UTF-8 bytes.
   Two names compare alike in both orders unless the first characters in which they differ are one
   supplementary character and one between U+E000 and U+FFFF.
   */
  lemma OrdersAgreeIff(s: string, t: string)
    ensures Compare(Utf8Bytes(s), Utf8Bytes(t)) == Compare(Utf16Units(s), Utf16Units(t)) <==> !Clash(s, t)
  {
    hide Compare, Agreed, Utf8Bytes, Utf16Units;
    TailsDecide(s, t);
    HeadsDecide(s[Agreed(s, t)..], t[Agreed(s, t)..]);
  }

  /** Clashing names come in one order for JavaScript and in the other one for Rust. */
  lemma ClashReverses(s: string, t: string)
    requires Clash(s, t)
    ensures Compare(Utf16Units(s), Utf16Units(t)) == Less <==> Compare(Utf8Bytes(s), Utf8Bytes(t)) == Greater
    ensures Compare(Utf16Units(s), Utf16Units(t)) == Greater <==> Compare(Utf8Bytes(s), Utf8Bytes(t)) == Less
    ensures Compare(Utf16Units(s), Utf16Units(t)) != Equal
  {
    hide Compare, Agreed, Utf8Bytes, Utf16Units;
    TailsDecide(s, t);
    var a, b := s[Agreed(s, t)..], t[Agreed(s, t)..];
    if a[0] < b[0] {
      LowerHead(a, b);
    } else {
      LowerHead(b, a);
      CompareFlips(Utf8Bytes(a), Utf8Bytes(b));
      CompareFlips(Utf16Units(a), Utf16Units(b));
    }
  }

  /** Different names have different encodings. */
  lemma Utf8Injective(s: string, t: string)
    ensures Utf8Bytes(s) == Utf8Bytes(t) <==> s == t
  {
    hide Compare, Agreed, Utf8Bytes, Utf16Units;
    TailsDecide(s, t);
    var k := Agreed(s, t);
    var a, b := s[k..], t[k..];
    assert s == s[..k] + a && t == t[..k] + b;
    CompareFlips(Utf8Bytes(s), Utf8Bytes(t));
    CompareFlips(Utf8Bytes(a), Utf8Bytes(b));
    NonEmpty(a);
    NonEmpty(b);
    if a != [] && b != [] {
      if a[0] < b[0] { LowerHead(a, b); } else { LowerHead(b, a); }
      CompareFlips(Utf8Bytes(b), Utf8Bytes(a));
    }
  }

  lemma HeadsDecide(a: string, b: string)
    requires a == [] || b == [] || a[0] != b[0]
    ensures Compare(Utf8Bytes(a), Utf8Bytes(b)) == Compare(Utf16Units(a), Utf16Units(b))
       <==> !(a != [] && b != [] && Swapped(a[0], b[0]))
  {
    NonEmpty(a);
    NonEmpty(b);
    if a != [] && b != [] {
      hide Compare;
      if a[0] < b[0] {
        LowerHead(a, b);
      } else {
        LowerHead(b, a);
        CompareFlips(Utf8Bytes(a), Utf8Bytes(b));
        CompareFlips(Utf16Units(a), Utf16Units(b));
      }
    }
  }

  lemma LowerHead(a: string, b: string)
    requires a != [] && b != [] && a[0] < b[0]
    ensures Compare(Utf8Bytes(a), Utf8Bytes(b)) == Less
    ensures Compare(Utf16Units(a), Utf16Units(b)) == if Swapped(a[0], b[0]) then Greater else Less
  {
    hide Compare;
    TakeFirst(a);
    TakeFirst(b);
    Utf8Order(a[0], b[0], Utf8Bytes(a[1..]), Utf8Bytes(b[1..]));
    Utf16Order(a[0], b[0], Utf16Units(a[1..]), Utf16Units(b[1..]));
  }

  lemma NonEmpty(s: string)
    ensures (s == [] <==> Utf8Bytes(s) == []) && (s == [] <==> Utf16Units(s) == [])
  {
  }

  lemma TakeFirst(s: string)
    requires s != []
    ensures Utf8Bytes(s) == Utf8(s[0]) + Utf8Bytes(s[1..]) && Utf16Units(s) == Utf16(s[0]) + Utf16Units(s[1..])
  {
    assert s == [s[0]] + s[1..] && [s[0]][..0] == [];
    BytesAppend([s[0]], s[1..]);
    UnitsAppend([s[0]], s[1..]);
    assert Utf8Bytes([s[0]]) == Utf8(s[0]) && Utf16Units([s[0]]) == Utf16(s[0]);
  }

  function Encoded(names: seq<string>): (bytes: seq<Name>)
    ensures |bytes| == |names| && forall i :: 0 <= i < |names| ==> bytes[i] == Utf8Bytes(names[i])
  {
    seq(|names|, i requires 0 <= i < |names| => Utf8Bytes(names[i]))
  }

  predicate JsSorted(names: seq<string>) {
    forall i, j :: 0 <= i < j < |names| ==> Compare(Utf16Units(names[i]), Utf16Units(names[j])) != Greater
  }

  predicate Over(names: seq<string>, u: set<string>) {
    forall i :: 0 <= i < |names| ==> names[i] in u
  }

  /** The merge of the two lists finds every name they share, as often as they share it. */
  ghost predicate CountedRight(a: seq<string>, b: seq<string>) {
    Common(Encoded(a), Encoded(b)) == |multiset(a) * multiset(b)|
  }

  /**
   Over a given vocabulary, all lists that JavaScript sorted are merged right iff no two names clash.
   Names without supplementary characters never do, nor do names without any from U+E000 to U+FFFF.
   */
  lemma JsSortedNamesMergeIff(u: set<string>)
    ensures (forall a: seq<string>, b: seq<string> ::
               JsSorted(a) && JsSorted(b) && Over(a, u) && Over(b, u) ==> CountedRight(a, b))
       <==> (forall s: string, t: string :: s in u && t in u ==> !Clash(s, t))
  {
    hide Clash, CountedRight, JsSorted, Compare, Utf16Units, Utf8Bytes;
    if forall s: string, t: string :: s in u && t in u ==> !Clash(s, t) {
      forall a: seq<string>, b: seq<string> | JsSorted(a) && JsSorted(b) && Over(a, u) && Over(b, u)
        ensures CountedRight(a, b)
      {
        WithoutClash(a, b, u);
      }
    } else {
      var s, t :| s in u && t in u && Clash(s, t);
      var a, b := ClashIsMissed(s, t);
    }
  }

  lemma SortedTheSame(a: seq<string>, u: set<string>)
    requires forall s: string, t: string :: s in u && t in u ==> !Clash(s, t)
    requires JsSorted(a) && Over(a, u)
    ensures Sorted(Encoded(a))
  {
    hide Clash, Compare, Utf8Bytes, Utf16Units;
    forall i, j | 0 <= i < j < |a| ensures Precedes(Encoded(a)[i], Encoded(a)[j]) {
      OrdersAgreeIff(a[i], a[j]);
    }
  }

  lemma WithoutClash(a: seq<string>, b: seq<string>, u: set<string>)
    requires forall s: string, t: string :: s in u && t in u ==> !Clash(s, t)
    requires JsSorted(a) && JsSorted(b) && Over(a, u) && Over(b, u)
    ensures CountedRight(a, b)
  {
    hide Clash, Sorted, JsSorted, Common;
    SortedTheSame(a, u);
    SortedTheSame(b, u);
    CommonIsIntersection(Encoded(a), Encoded(b));
    SharedEncoded(a, b);
  }

  lemma EncodedAppend(a: seq<string>, b: seq<string>)
    ensures Encoded(a + b) == Encoded(a) + Encoded(b)
  {
    hide Utf8Bytes;
  }

  lemma EncodedOne(x: string)
    ensures Encoded([x]) == [Utf8Bytes(x)]
  {
    hide Utf8Bytes;
  }

  lemma TakeOut<T>(l: seq<T>, x: T, r: seq<T>)
    ensures multiset(l + [x] + r) == multiset{x} + multiset(l + r)
  {
  }

  /** UTF-8 being injective, names are shared as often as their encodings. */
  lemma {:induction false} SharedEncoded(a: seq<string>, b: seq<string>)
    ensures |multiset(Encoded(a)) * multiset(Encoded(b))| == |multiset(a) * multiset(b)|
  {
    hide Utf8Bytes, Encoded;
    if a == [] {
      assert Encoded(a) == [];
      assert multiset(Encoded(a)) * multiset(Encoded(b)) == multiset{};
      assert multiset(a) * multiset(b) == multiset{};
    } else {
      var x, rest := a[0], a[1..];
      var y := Utf8Bytes(x);
      SplitHead(a);
      assert a == [x] + rest;
      EncodedAppend([x], rest);
      EncodedOne(x);
      SplitHead(Encoded(a));
      assert Encoded(a)[1..] == Encoded(rest);
      if x in b {
        var k :| 0 <= k < |b| && b[k] == x;
        var l, r := b[..k], b[k + 1..];
        assert b == l + [x] + r;
        EncodedAppend(l + [x], r);
        EncodedAppend(l, [x]);
        EncodedAppend(l, r);
        TakeOut(l, x, r);
        TakeOut(Encoded(l), y, Encoded(r));
        MatchShared(x, multiset(rest), multiset(l + r));
        MatchShared(y, multiset(Encoded(rest)), multiset(Encoded(l + r)));
        SharedEncoded(rest, l + r);
      } else {
        forall j | 0 <= j < |b| ensures Encoded(b)[j] != y {
          Utf8Injective(b[j], x);
        }
        SkipAbsent(x, multiset(rest), multiset(b));
        SkipAbsent(y, multiset(Encoded(rest)), multiset(Encoded(b)));
        SharedEncoded(rest, b);
      }
    }
  }

  lemma {:induction false} ClashFlips(s: string, t: string)
    requires Clash(s, t)
    ensures Clash(t, s)
  {
    AgreedFlips(s, t);
  }

  lemma {:induction false} AgreedFlips(s: string, t: string)
    ensures Agreed(s, t) == Agreed(t, s)
  {
    if s != [] && t != [] && s[0] == t[0] { AgreedFlips(s[1..], t[1..]); }
  }

  /** Where two names clash there are two sorted lists that share one of them, and the merge finds none. */
  lemma ClashIsMissed(s: string, t: string) returns (a: seq<string>, b: seq<string>)
    requires Clash(s, t)
    ensures JsSorted(a) && JsSorted(b) && Over(a, {s, t}) && Over(b, {s, t}) && !CountedRight(a, b)
    ensures Compare(Utf16Units(s), Utf16Units(t)) == Less ==> a == [s, t] && b == [t]
    ensures Common(Encoded(a), Encoded(b)) == 0 && |multiset(a) * multiset(b)| == 1
  {
    hide Clash, Compare, Utf8Bytes, Utf16Units, JsSorted, CountedRight, Common, Encoded;
    ClashReverses(s, t);
    if Compare(Utf16Units(s), Utf16Units(t)) == Less {
      PairIsMissed(s, t);
      a, b := [s, t], [t];
    } else {
      ClashFlips(s, t);
      ClashReverses(t, s);
      CompareFlips(Utf16Units(s), Utf16Units(t));
      PairIsMissed(t, s);
      a, b := [t, s], [s];
    }
  }

  lemma PairIsMissed(f: string, l: string)
    requires Compare(Utf16Units(f), Utf16Units(l)) == Less && Compare(Utf8Bytes(f), Utf8Bytes(l)) == Greater
    ensures JsSorted([f, l]) && JsSorted([l]) && !CountedRight([f, l], [l])
    ensures Common(Encoded([f, l]), Encoded([l])) == 0 && |multiset([f, l]) * multiset([l])| == 1
  {
    hide Compare, Utf8Bytes, Utf16Units, Common;
    var x, y := Utf8Bytes(f), Utf8Bytes(l);
    EncodedAppend([f], [l]);
    EncodedOne(f);
    EncodedOne(l);
    hide Encoded;
    assert [f] + [l] == [f, l] && [x] + [y] == [x, y];
    OneSharedOneMissed(x, y);
    SharedEncoded([f, l], [l]);
  }

  lemma OneSharedOneMissed(x: Name, y: Name)
    requires Compare(x, y) == Greater
    ensures Common([x, y], [y]) == 0
    ensures |multiset([x, y]) * multiset([y])| == 1
  {
    CompareFlips(x, y);
    var b := [y];
    assert b[1..] == [];
    assert multiset([x, y]) * multiset([y]) == multiset{y};
  }

  /** An instance: the lists share one name, the merge finds none. */
  lemma JsSortedNamesCanBeMissed()
    ensures var a, b := ["\U{10000}", "\U{FFFF}"], ["\U{FFFF}"];
            JsSorted(a) && JsSorted(b) && Common(Encoded(a), Encoded(b)) == 0 && |multiset(a) * multiset(b)| == 1
  {
    var s, t := "\U{10000}", "\U{FFFF}";
    LowerHead(t, s);
    CompareFlips(Utf16Units(t), Utf16Units(s));
    assert Agreed(s, t) == 0 && Clash(s, t);
    hide Compare, Utf8Bytes, Utf16Units, Common, Clash;
    var a, b := ClashIsMissed(s, t);
  }
}
