/**
 The JavaScript port outside ASCII, where it mixes UTF-16 code units and Rust mixes UTF-8 bytes: a
 single character outside ASCII always makes a difference, and a great many of them need not.
 */
module PortLimits {
  import opened Bits
  import opened Noise
  import opened Orbits
  import opened Unicode
  import opened Words

  // ---------------------------------------------------------------- a difference stays

  lemma StateDecides(seed: u64, units: seq<u64>, units': seq<u64>, a: u64, b: u64)
    ensures MixSpec(seed, units, a, b) == MixSpec(seed, units', a, b)
       <==> MixBytes(seed, units) == MixBytes(seed, units')
  {
    hide Round, Unround;
    var h, h' := MixBytes(seed, units), MixBytes(seed, units');
    RoundInverse(h, a);
    RoundInverse(h', a);
    RoundInverse(Round(h, a), b);
    RoundInverse(Round(h', a), b);
  }

  lemma {:induction false} MixAppend(h: u64, x: seq<u64>, y: seq<u64>)
    ensures MixBytes(h, x + y) == MixBytes(MixBytes(h, x), y)
    decreases |y|
  {
    hide Round;
    if y == [] {
      assert x + y == x;
    } else {
      assert (x + y)[..|x + y| - 1] == x + y[..|y| - 1];
      MixAppend(h, x, y[..|y| - 1]);
    }
  }

  /** A difference between two states survives whatever both go on to mix in. */
  lemma DifferenceStays(seed: u64, x: seq<u64>, y: seq<u64>, y': seq<u64>, z: seq<u64>)
    requires MixBytes(MixBytes(seed, x), y) != MixBytes(MixBytes(seed, x), y')
    ensures MixBytes(seed, x + y + z) != MixBytes(seed, x + y' + z)
  {
    hide Round, Unround, MixBytes, UnmixBytes;
    MixAppend(seed, x, y);
    MixAppend(seed, x, y');
    MixAppend(seed, x + y, z);
    MixAppend(seed, x + y', z);
    BytesInverse(MixBytes(seed, x + y), z);
    BytesInverse(MixBytes(seed, x + y'), z);
  }

  // ---------------------------------------------------------------- characters of two bytes

  /** The products of the lead bytes of two-byte UTF-8 sequences keep well clear of small numbers. */
  lemma LeadProducts(lead: nat)
    requires 0xC2 <= lead <= 0xDF
    ensures 0x800 <= WrapMul(lead, M) < TWO64 - 0x800
  {
    if
    case lead < 0xCC => LeadProductsFrom(lead, 0xC2);
    case 0xCC <= lead < 0xD6 => LeadProductsFrom(lead, 0xCC);
    case 0xD6 <= lead => LeadProductsFrom(lead, 0xD6);
  }

  lemma LeadProductsFrom(lead: nat, first: nat)
    requires first in {0xC2, 0xCC, 0xD6} && first <= lead < first + 10
    ensures 0x800 <= WrapMul(lead, M) < TWO64 - 0x800
  {
  }

  lemma TwoBytes(lead: nat, trail: nat)
    requires lead < 256 && trail < 256
    ensures MixBytes(0, [lead, trail]) == Round(lead, trail)
  {
    hide Round;
    assert [lead, trail][..1] == [lead];
    FromZero(lead);
  }

  lemma TwoByteState(v: nat)
    requires 0x80 <= v < 0x800
    ensures MixBytes(0, [v]) != MixBytes(0, [0xC0 + v / 0x40, 0x80 + v % 0x40])
  {
    hide MixBytes, ShiftMix, ShiftUnmix;
    var lead, trail := 0xC0 + v / 0x40, 0x80 + v % 0x40;
    FromZero(v);
    TwoBytes(lead, trail);
    LeadProducts(lead);
    var w := WrapAdd(WrapMul(lead, M), trail);
    assert w >= 0x800;
    SmallShift(v);
    ShiftMixInverse(v, 33);
    ShiftMixInverse(w, 33);
  }

  // ---------------------------------------------------------------- characters of three bytes

  /** The state from which mixing in `b` leads to `y`, one multiplication later. */
  lemma StateBefore(y: u64, b: u64)
    ensures Round(Unround(y, b), b) == y
    ensures WrapMul(Unround(y, b), M) == WrapSub(ShiftUnmix(y, 33), b)
  {
    hide WrapMul, WrapSub, ShiftMix, ShiftUnmix;
    RoundInverse(y, b);
    assert (M * M_INVERSE) % TWO64 == 1;
    MulUndone(WrapSub(ShiftUnmix(y, 33), b), M_INVERSE, M);
  }

  lemma FromNothing(v: nat)
    requires v < 0x2_0000_0000
    ensures Round(0, v) == v
  {
    hide ShiftMix;
    SmallShift(v);
  }

  lemma SameRound(h: u64, v: u64, h': u64, v': u64)
    ensures Round(h, v) == Round(h', v') <==> WrapAdd(WrapMul(h, M), v) == WrapAdd(WrapMul(h', M), v')
  {
    hide ShiftMix, ShiftUnmix, WrapMul, WrapAdd;
    ShiftMixInverse(WrapAdd(WrapMul(h, M), v), 33);
    ShiftMixInverse(WrapAdd(WrapMul(h', M), v'), 33);
  }

  lemma TrailProducts(b: nat)
    requires 0x80 <= b < 0xC0
    ensures 0x2_0000 <= WrapMul(b, M) < TWO64 - 0x2_0000
  {
    if
    case b < 0x90 => TrailProductsFrom(b, 0x80);
    case 0x90 <= b < 0xA0 => TrailProductsFrom(b, 0x90);
    case 0xA0 <= b < 0xB0 => TrailProductsFrom(b, 0xA0);
    case 0xB0 <= b => TrailProductsFrom(b, 0xB0);
  }

  lemma TrailProductsFrom(b: nat, first: nat)
    requires first in {0x80, 0x90, 0xA0, 0xB0} && first <= b < first + 16
    ensures 0x2_0000 <= WrapMul(b, M) < TWO64 - 0x2_0000
  {
  }

  lemma MixOne(s: u64, a: u64)
    ensures MixBytes(s, [a]) == Round(s, a)
  {
    hide Round;
    assert [a][..0] == [];
  }

  lemma MixTwo(s: u64, a: u64, b: u64)
    ensures MixBytes(s, [a, b]) == Round(Round(s, a), b)
  {
    hide Round;
    MixOne(s, a);
    assert [a, b][..1] == [a];
  }

  lemma MixThree(s: u64, a: u64, b: u64, c: u64)
    ensures MixBytes(s, [a, b, c]) == Round(Round(Round(s, a), b), c)
  {
    hide Round;
    MixTwo(s, a, b);
    assert [a, b, c][..2] == [a, b];
  }

  lemma MixFour(s: u64, a: u64, b: u64, c: u64, d: u64)
    ensures MixBytes(s, [a, b, c, d]) == Round(Round(Round(Round(s, a), b), c), d)
  {
    hide Round;
    MixThree(s, a, b, c);
    assert [a, b, c, d][..3] == [a, b, c];
  }

  lemma ThreeByteState(v: nat, b1: nat, b2: nat, b3: nat)
    requires 0x800 <= v < 0x1_0000 && 0xE0 <= b1 < 0xF0 && 0x80 <= b2 < 0xC0 && 0x80 <= b3 < 0xC0
    ensures MixBytes(Unround(0, b1), [v]) != MixBytes(Unround(0, b1), [b1, b2, b3])
  {
    hide Round, Unround, ShiftMix, ShiftUnmix, WrapMul;
    var s := Unround(0, b1);
    StateBefore(0, b1);
    UnmixZero();
    FromNothing(b2);
    MixThree(s, b1, b2, b3);
    MixOne(s, v);
    TrailProducts(b2);
    SameRound(s, v, b2, b3);
  }

  lemma UnmixZero()
    ensures ShiftUnmix(0, 33) == 0
  {
    hide ShiftMix, ShiftUnmix;
    SmallShift(0);
    ShiftMixInverse(0, 33);
  }

  // ---------------------------------------------------------------- characters of four bytes

  const TOP: u64 := 0x8000_0000_0000_0000
  const BIT30: u64 := 0x4000_0000
  /** `WrapMul(BIT30, M)` */
  const C: u64 := 0x5FD2_9F05_4000_0000

  /** The upper 33 bits pass through an xor-shift by 33. */
  lemma HighPart(z: u64)
    ensures ShiftMix(z, 33) / 0x8000_0000 == z / 0x8000_0000
  {
    hide Xor, Shr, Pow2;
    SmallPowers();
    ShrDivides(z, 33);
    var hi, lo, s := z / 0x8000_0000, z % 0x8000_0000, z / 0x2_0000_0000;
    XorSplit(hi, lo, 0, s, 31);
    XorZero(hi);
    XorBound(lo, s, 31);
    assert ShiftMix(z, 33) == hi * 0x8000_0000 + Xor(lo, s);
  }

  /** The highest bit comes back at position 30, and cancels there. */
  lemma TopShift(d: nat)
    requires d < BIT30
    ensures ShiftMix(TOP + d, 33) == TOP + BIT30 + d && ShiftMix(TOP + BIT30 + d, 33) == TOP + d
  {
    Pow2Add(1, 30);
    assert Pow2(1) == 2;
    hide Xor, Shr, Pow2;
    SmallPowers();
    LastBit();
    XorZero(d);
    TopShiftOf(0x2_0000_0000, d);
    TopShiftOf(0x2_0000_0001, d);
  }

  lemma TopShiftOf(hi: nat, d: nat)
    requires d < BIT30 && Pow2(30) == BIT30 && hi in {0x2_0000_0000, 0x2_0000_0001}
    ensures ShiftMix(hi * BIT30 + d, 33) == Xor(hi, 1) * BIT30 + Xor(d, 0)
  {
    hide Xor, Shr, Pow2;
    SmallPowers();
    ShrDivides(hi * BIT30 + d, 33);
    XorSplit(hi, d, 1, 0, 30);
  }

  lemma LastBit()
    ensures Xor(0x2_0000_0000, 1) == 0x2_0000_0001 && Xor(0x2_0000_0001, 1) == 0x2_0000_0000
  {
    hide Xor;
    XorDigit(0x2_0000_0000, 1);
    XorDigit(0x2_0000_0001, 1);
    XorZero(0x1_0000_0000);
  }

  /** M is odd: the highest bit survives the multiplication. */
  lemma TopTimes(x: u64)
    ensures WrapMul(WrapAdd(x, TOP), M) == WrapAdd(WrapMul(x, M), TOP)
  {
    var k := M / 2;
    var y := WrapAdd(x, TOP);
    var q, r := x * M / TWO64, WrapMul(x, M);
    assert x * M == TWO64 * q + r;
    var carry := if x >= TOP then 1 else 0;
    assert y == x + TOP - TWO64 * carry;
    assert y * M == x * M + TOP * M - TWO64 * carry * M;
    assert TOP * M == TWO64 * k + TOP;
    assert TWO64 * carry * M == TWO64 * (carry * M);
    if r < TOP {
      DivUnique(y * M, TWO64, q + k - carry * M, r + TOP);
    } else {
      DivUnique(y * M, TWO64, q + k - carry * M + 1, r - TOP);
    }
  }

  lemma WideTimes(b: nat)
    requires b < 256
    ensures WrapMul(TOP + BIT30 + b, M) == (WrapMul(b, M) + C + TOP) % TWO64
  {
    var k := M / 2;
    var q, r := b * M / TWO64, WrapMul(b, M);
    assert b * M == TWO64 * q + r;
    assert BIT30 * M == TWO64 * (BIT30 * M / TWO64) + C;
    assert TOP * M == TWO64 * k + TOP;
    assert (TOP + BIT30 + b) * M == TOP * M + BIT30 * M + b * M;
    var m := k + BIT30 * M / TWO64 + q;
    var x := r + C + TOP;
    assert (TOP + BIT30 + b) * M == TWO64 * m + x;
    DivUnique((TOP + BIT30 + b) * M, TWO64, m + x / TWO64, x % TWO64);
  }

  /** Two words that differ by the highest bit after mixing differ by hardly anything else before. */
  lemma NotApart(a: u64, a': u64)
    requires a' == (a + C + TOP) % TWO64
    ensures ShiftMix(a', 33) != WrapAdd(ShiftMix(a, 33), TOP)
  {
    hide ShiftMix;
    HighPart(a);
    HighPart(a');
  }

  /** Of two states, one tells the two encodings of a supplementary character apart. */
  lemma FourByteState(u1: nat, u2: nat, b1: nat, b2: nat, b3: nat, b4: nat) returns (s: u64)
    requires 0xD800 <= u1 < 0xDC00 && 0xDC00 <= u2 < 0xE000
    requires 0xF0 <= b1 < 0xF8 && 0x80 <= b2 < 0xC0 && 0x80 <= b3 < 0xC0 && 0x80 <= b4 < 0xC0
    ensures MixBytes(s, [u1, u2]) != MixBytes(s, [b1, b2, b3, b4])
  {
    hide Round, Unround, ShiftMix, ShiftUnmix, WrapMul;
    var d := u1 - b1;
    var s0, s1 := Unround(0, b1), Unround(TOP, b1);
    MixTwo(s0, u1, u2);
    MixTwo(s1, u1, u2);
    MixFour(s0, b1, b2, b3, b4);
    MixFour(s1, b1, b2, b3, b4);
    StateBefore(0, b1);
    StateBefore(TOP, b1);
    UnmixZero();
    UnmixTop();
    FromNothing(b2);
    FirstRounds(s0, s1, u1, b1, b2, d);
    s := s0;
    if MixBytes(s0, [u1, u2]) == MixBytes(s0, [b1, b2, b3, b4]) {
      s := s1;
      if MixBytes(s1, [u1, u2]) == MixBytes(s1, [b1, b2, b3, b4]) {
        BothAgree(d, u2, b2, b3, b4);
      }
    }
  }

  lemma UnmixTop()
    ensures ShiftUnmix(TOP, 33) == TOP + BIT30
  {
    hide ShiftMix, ShiftUnmix;
    TopShift(0);
    ShiftMixInverse(TOP + BIT30, 33);
  }

  /** What the first round subtracts and adds. */
  lemma AddBack(b: nat, u: nat)
    requires b <= u < 0x1_0000
    ensures WrapAdd(WrapSub(0, b), u) == u - b && WrapAdd(WrapSub(TOP + BIT30, b), u) == TOP + BIT30 + (u - b)
  {
    SubIs(0, b);
    SubIs(TOP + BIT30, b);
    AddIs(WrapSub(0, b), u);
    AddIs(WrapSub(TOP + BIT30, b), u);
    hide WrapAdd, WrapSub;
  }

  lemma TopAlone(b: nat)
    requires b < 0x1_0000
    ensures WrapAdd(WrapMul(TOP, M), b) == TOP + b
  {
    assert WrapMul(TOP, M) == TOP;
  }

  lemma FirstRounds(s0: u64, s1: u64, u1: nat, b1: nat, b2: nat, d: nat)
    requires 0xD800 <= u1 < 0xDC00 && 0xF0 <= b1 < 0xF8 && 0x80 <= b2 < 0xC0 && d == u1 - b1
    ensures WrapMul(s0, M) == WrapSub(0, b1) ==> Round(s0, u1) == d
    ensures WrapMul(s1, M) == WrapSub(TOP + BIT30, b1) ==> Round(s1, u1) == TOP + d
    ensures Round(TOP, b2) == TOP + BIT30 + b2
  {
    hide ShiftMix, WrapMul, WrapAdd, WrapSub, Round;
    AddBack(b1, u1);
    TopAlone(b2);
    RoundIs(s0, u1);
    RoundIs(s1, u1);
    RoundIs(TOP, b2);
    SmallShift(d);
    TopShift(d);
    TopShift(b2);
  }

  /** Were both states to agree, an xor-shift would have to be a translation. */
  lemma BothAgree(d: nat, u2: nat, b2: nat, b3: nat, b4: nat)
    requires d < BIT30 && u2 < 0x1_0000 && b2 < 256 && b3 < 256 && b4 < 256
    ensures Round(Round(b2, b3), b4) == Round(d, u2) ==> Round(Round(TOP + BIT30 + b2, b3), b4) != Round(TOP + d, u2)
  {
    hide ShiftMix, WrapMul, WrapAdd, Round;
    var h := TOP + BIT30 + b2;
    var a, a' := WrapAdd(WrapMul(b2, M), b3), WrapAdd(WrapMul(h, M), b3);
    var r, r' := ShiftMix(a, 33), ShiftMix(a', 33);
    RoundIs(b2, b3);
    RoundIs(h, b3);
    if Round(r, b4) == Round(d, u2) && Round(r', b4) == Round(TOP + d, u2) {
      SameRound(r, b4, d, u2);
      SameRound(r', b4, TOP + d, u2);
      SmallTop(d);
      TopTimes(d);
      TopTimes(r);
      Shifted(WrapMul(r, M), WrapMul(r', M), WrapMul(d, M), b4, u2);
      assert (M * M_INVERSE) % TWO64 == 1;
      MulUndone(r', M, M_INVERSE);
      MulUndone(WrapAdd(r, TOP), M, M_INVERSE);
      WideApart(b2, b3);
      NotApart(a, a');
    }
  }

  lemma SmallTop(d: nat)
    requires d < BIT30
    ensures WrapAdd(d, TOP) == TOP + d
  {
  }

  lemma Shifted(p: u64, p': u64, q: u64, v: nat, v': nat)
    requires v < 256 && v' < 0x1_0000
    requires WrapAdd(p, v) == WrapAdd(q, v') && WrapAdd(p', v) == WrapAdd(WrapAdd(q, TOP), v')
    ensures p' == WrapAdd(p, TOP)
  {
    Difference(p, q, v, v');
    Difference(p', WrapAdd(q, TOP), v, v');
    Commute(q, v' - v);
  }

  lemma Difference(p: u64, q: u64, v: nat, v': nat)
    requires v < 256 && v' < 0x1_0000 && WrapAdd(p, v) == WrapAdd(q, v')
    ensures p == (q + v' - v) % TWO64
  {
  }

  lemma Commute(q: u64, e: int)
    requires -256 < e < 0x1_0000
    ensures ((q + TOP) % TWO64 + e) % TWO64 == ((q + e) % TWO64 + TOP) % TWO64
  {
  }

  lemma WideApart(b2: nat, b3: nat)
    requires b2 < 256 && b3 < 256
    ensures WrapAdd(WrapMul(TOP + BIT30 + b2, M), b3) == (WrapAdd(WrapMul(b2, M), b3) + C + TOP) % TWO64
  {
    hide WrapMul;
    WideTimes(b2);
  }

  lemma RoundIs(h: u64, v: u64)
    ensures Round(h, v) == ShiftMix(WrapAdd(WrapMul(h, M), v), 33)
  {
  }

  // ---------------------------------------------------------------- one character outside ASCII

  /** Every character outside ASCII is mixed differently from some state. */
  lemma SomeStateDiffers(c: char) returns (s: u64)
    requires c >= '\U{80}'
    ensures MixBytes(s, AsWords(Utf16Units([c]))) != MixBytes(s, AsWords(Utf8Bytes([c])))
  {
    hide MixBytes, Unround;
    var v := c as int;
    assert [c][..0] == [];
    assert Utf8Bytes([c]) == Utf8(c) && Utf16Units([c]) == Utf16(c);
    if v < 0x800 {
      TwoByteState(v);
      s := 0;
    } else if v < 0x1_0000 {
      ThreeByteState(v, 0xE0 + v / 0x1000, 0x80 + v / 0x40 % 0x40, 0x80 + v % 0x40);
      s := Unround(0, 0xE0 + v / 0x1000);
    } else {
      s := FourByteState(0xD800 + (v - 0x1_0000) / 0x400, 0xDC00 + (v - 0x1_0000) % 0x400,
                         0xF0 + v / 0x4_0000, 0x80 + v / 0x1000 % 0x40, 0x80 + v / 0x40 % 0x40, 0x80 + v % 0x40);
    }
  }

  /** The two sides give the same hash for an operation with every seed and all coordinates. */
  ghost predicate Agree(operation: string) {
    forall seed: u64, a: u64, b: u64 ::
      JsMix(seed, Utf16Units(operation), a, b) == MixSpec(seed, AsWords(Utf8Bytes(operation)), a, b)
  }

  ghost predicate SameStates(y: seq<u64>, y': seq<u64>) {
    forall seed: u64 :: MixBytes(seed, y) == MixBytes(seed, y')
  }

  /** The sides agree iff code units and bytes take every state to the same state. */
  lemma AgreeIff(operation: string)
    ensures Agree(operation) <==> SameStates(AsWords(Utf16Units(operation)), AsWords(Utf8Bytes(operation)))
  {
    hide MixSpec, MixBytes, JsMix, Utf8Bytes, Utf16Units;
    var y, y' := AsWords(Utf16Units(operation)), AsWords(Utf8Bytes(operation));
    if SameStates(y, y') {
      forall seed: u64, a: u64, b: u64 ensures JsMix(seed, Utf16Units(operation), a, b) == MixSpec(seed, y', a, b) {
        HashesAgreeIff(seed, operation, a, b);
      }
    }
    if Agree(operation) {
      forall seed: u64 ensures MixBytes(seed, y) == MixBytes(seed, y') {
        HashesAgreeIff(seed, operation, 0, 0);
        assert JsMix(seed, Utf16Units(operation), 0, 0) == MixSpec(seed, y', 0, 0);
      }
    }
  }

  lemma HashesAgreeIff(seed: u64, operation: string, a: u64, b: u64)
    ensures JsMix(seed, Utf16Units(operation), a, b) == MixSpec(seed, AsWords(Utf8Bytes(operation)), a, b)
       <==> MixBytes(seed, AsWords(Utf16Units(operation))) == MixBytes(seed, AsWords(Utf8Bytes(operation)))
  {
    hide MixSpec, MixBytes, JsMix, Utf8Bytes, Utf16Units;
    JsMixIsMix(seed, Utf16Units(operation), a, b);
    SmallWord(a);
    SmallWord(b);
    StateDecides(seed, AsWords(Utf16Units(operation)), AsWords(Utf8Bytes(operation)), a, b);
  }

  /**
   For an operation with at most one character outside ASCII, the port agrees with Rust for all seeds
   and coordinates iff that character is ASCII, too.
   */
  lemma PortAgreesIff(p: string, c: char, q: string)
    requires Ascii(p) && Ascii(q)
    ensures Agree(p + [c] + q) <==> c < '\U{80}'
  {
    hide MixBytes, UnmixBytes, Utf8Bytes, Utf16Units, Agree;
    var operation := p + [c] + q;
    AgreeIff(operation);
    SameEncodingIffAscii(p);
    SameEncodingIffAscii(q);
    SameEncodingIffAscii(operation);
    assert Ascii(operation) <==> c < '\U{80}' by {
      assert operation[|p|] == c;
    }
    if c >= '\U{80}' {
      BytesAppend(p, [c]);
      BytesAppend(p + [c], q);
      UnitsAppend(p, [c]);
      UnitsAppend(p + [c], q);
      var x, z := AsWords(Utf8Bytes(p)), AsWords(Utf8Bytes(q));
      var y, y' := AsWords(Utf16Units([c])), AsWords(Utf8Bytes([c]));
      var s := SomeStateDiffers(c);
      var seed := UnmixBytes(s, x);
      BytesInverse(s, x);
      DifferenceStays(seed, x, y, y', z);
      assert AsWords(Utf16Units(operation)) == x + y + z && AsWords(Utf8Bytes(operation)) == x + y' + z;
    }
  }

  // ---------------------------------------------------------------- many characters outside ASCII

  function Repeat<T>(x: seq<T>, k: nat): seq<T> {
    if k == 0 then [] else Repeat(x, k - 1) + x
  }

  lemma {:induction false} RepeatEncoded(c: char, k: nat)
    ensures Utf8Bytes(Repeat([c], k)) == Repeat(Utf8Bytes([c]), k)
    ensures Utf16Units(Repeat([c], k)) == Repeat(Utf16Units([c]), k)
  {
    hide Utf8Bytes, Utf16Units;
    if k == 0 {
      NothingEncoded();
    } else {
      RepeatEncoded(c, k - 1);
      BytesAppend(Repeat([c], k - 1), [c]);
      UnitsAppend(Repeat([c], k - 1), [c]);
    }
  }

  lemma NothingEncoded()
    ensures Utf8Bytes([]) == [] && Utf16Units([]) == []
  {
  }

  lemma {:induction false} RepeatWords(units: seq<nat>, k: nat)
    requires forall i :: 0 <= i < |units| ==> units[i] < 0x1_0000
    ensures forall i :: 0 <= i < |Repeat(units, k)| ==> Repeat(units, k)[i] < 0x1_0000
    ensures AsWords(Repeat(units, k)) == Repeat(AsWords(units), k)
  {
    if k > 0 { RepeatWords(units, k - 1); }
  }

  /** Mixing in the same units `k` times over is `k` applications of one permutation. */
  lemma {:induction false} MixRepeated(f: u64 -> u64, seed: u64, ws: seq<u64>, k: nat)
    requires forall h: u64 :: f(h) == MixBytes(h, ws)
    ensures MixBytes(seed, Repeat(ws, k)) == Iterate(f, k, seed)
  {
    hide MixBytes;
    if k == 0 {
      NothingMixed(seed);
    } else {
      MixRepeated(f, seed, ws, k - 1);
      MixAppend(seed, Repeat(ws, k - 1), ws);
    }
  }

  lemma NothingMixed(seed: u64)
    ensures MixBytes(seed, []) == seed
  {
  }

  lemma MixReturns(seed: u64, ws: seq<u64>, n: nat)
    requires n == TWO64
    ensures MixBytes(seed, Repeat(ws, Factorial(n))) == seed
  {
    hide MixBytes, UnmixBytes, Iterate, Factorial;
    var f := (h: u64) => MixBytes(h, ws);
    assert Injective(f) by {
      forall x: u64, y: u64 | f(x) == f(y) ensures x == y {
        BytesInverse(x, ws);
        BytesInverse(y, ws);
      }
    }
    MixRepeated(f, seed, ws, Factorial(n));
    PermutationReturns(f, n, seed);
  }

  /**
   In general the sides can agree outside ASCII: both mixers are permutations of a finite set of
   states, so enough repetitions of any character take every state back to itself on both sides.
   */
  lemma PortCanAgreeOutsideAscii(c: char) returns (operation: string)
    requires c >= '\U{80}'
    ensures !Ascii(operation) && Agree(operation)
  {
    operation := Repetition(c, TWO64);
  }

  lemma Repetition(c: char, n: nat) returns (operation: string)
    requires c >= '\U{80}' && n == TWO64
    ensures !Ascii(operation) && Agree(operation)
  {
    hide MixBytes, Utf8Bytes, Utf16Units, Factorial, Agree;
    var k := Factorial(n);
    operation := Repeat([c], k);
    FactorialPositive(n);
    assert operation[|operation| - 1] == c;
    RepeatEncoded(c, k);
    RepeatWords(Utf8Bytes([c]), k);
    RepeatWords(Utf16Units([c]), k);
    AgreeIff(operation);
    var y, y' := AsWords(Utf16Units(operation)), AsWords(Utf8Bytes(operation));
    forall seed: u64 ensures MixBytes(seed, y) == MixBytes(seed, y') {
      MixReturns(seed, AsWords(Utf16Units([c])), n);
      MixReturns(seed, AsWords(Utf8Bytes([c])), n);
    }
  }
}
