/**
 The seeded noise mixer of `noise.rs`, its inverse, and the JavaScript port of it that is
 injected into pages.
 */
module Noise {
  import opened Bits
  import opened Words
  import opened Unicode

  const M: u64 := 0x9e37_79b9_7f4a_7c15
  const M_INVERSE: u64 := 0xf1de_83e1_9937_733d

  // ---------------------------------------------------------------- the Rust mixer

  /** One round: multiply, add, xor-shift. */
  function Round(h: u64, v: u64): u64 {
    ShiftMix(WrapAdd(WrapMul(h, M), v), 33)
  }

  function MixBytes(h: u64, bytes: seq<u64>): u64 {
    if bytes == [] then h else Round(MixBytes(h, bytes[..|bytes| - 1]), bytes[|bytes| - 1])
  }

  function MixSpec(seed: u64, bytes: seq<u64>, a: u64, b: u64): u64 {
    Round(Round(MixBytes(seed, bytes), a), b)
  }

  /** `mix`. */
  method Mix(seed: u64, operation: string, a: u64, b: u64) returns (h: u64)
    requires a < 0x1_0000_0000 && b < 0x1_0000_0000
    ensures h == MixSpec(seed, AsWords(Utf8Bytes(operation)), a, b)
  {
    var bytes := AsWords(Utf8Bytes(operation));
    h := seed;
    for i := 0 to |bytes|
      invariant h == MixBytes(seed, bytes[..i])
    {
      assert bytes[..i + 1][..i] == bytes[..i];
      h := WrapAdd(WrapMul(h, M), bytes[i]);
      h := ShiftMix(h, 33);
    }
    assert bytes[..|bytes|] == bytes;
    h := WrapAdd(WrapMul(h, M), a);
    h := ShiftMix(h, 33);
    h := WrapAdd(WrapMul(h, M), b);
    h := ShiftMix(h, 33);
  }

  /** Bytes and code units as words. */
  function AsWords(units: seq<nat>): (ws: seq<u64>)
    requires forall k :: 0 <= k < |units| ==> units[k] < 0x1_0000
    ensures ws == units
  {
    units
  }

  // ---------------------------------------------------------------- the mixer is a permutation

  function Unround(y: u64, v: u64): u64 {
    WrapMul(WrapSub(ShiftUnmix(y, 33), v), M_INVERSE)
  }

  lemma RoundInverse(h: u64, v: u64)
    ensures Unround(Round(h, v), v) == h && Round(Unround(h, v), v) == h
  {
    hide WrapMul, WrapAdd, WrapSub, ShiftMix, ShiftUnmix;
    assert (M * M_INVERSE) % TWO64 == 1;
    ShiftMixInverse(WrapAdd(WrapMul(h, M), v), 33);
    AddUndone(WrapMul(h, M), v);
    MulUndone(h, M, M_INVERSE);
    ShiftMixInverse(h, 33);
    AddUndone(ShiftUnmix(h, 33), v);
    MulUndone(WrapSub(ShiftUnmix(h, 33), v), M_INVERSE, M);
  }

  /** A round loses nothing of the value mixed in. */
  lemma RoundInjective(h: u64, v: u64, v': u64)
    ensures Round(h, v) == Round(h, v') <==> v == v'
  {
    hide ShiftMix, ShiftUnmix;
    ShiftMixInverse(WrapAdd(WrapMul(h, M), v), 33);
    ShiftMixInverse(WrapAdd(WrapMul(h, M), v'), 33);
    SumInjective(WrapMul(h, M), v, v');
  }

  function UnmixBytes(h: u64, bytes: seq<u64>): u64
    decreases |bytes|
  {
    if bytes == [] then h else UnmixBytes(Unround(h, bytes[|bytes| - 1]), bytes[..|bytes| - 1])
  }

  lemma {:induction false} BytesInverse(h: u64, bytes: seq<u64>)
    ensures UnmixBytes(MixBytes(h, bytes), bytes) == h && MixBytes(UnmixBytes(h, bytes), bytes) == h
    decreases |bytes|
  {
    hide Round, Unround;
    if bytes != [] {
      var p, v := bytes[..|bytes| - 1], bytes[|bytes| - 1];
      RoundInverse(MixBytes(h, p), v);
      RoundInverse(h, v);
      BytesInverse(h, p);
      BytesInverse(Unround(h, v), p);
    }
  }

  function Unmix(h: u64, bytes: seq<u64>, a: u64, b: u64): u64 {
    UnmixBytes(Unround(Unround(h, b), a), bytes)
  }

  /** For every operation string and all coordinates, `mix` is a permutation of the 64-bit seeds. */
  lemma MixIsPermutation(seed: u64, bytes: seq<u64>, a: u64, b: u64)
    ensures Unmix(MixSpec(seed, bytes, a, b), bytes, a, b) == seed
    ensures MixSpec(Unmix(seed, bytes, a, b), bytes, a, b) == seed
  {
    hide Round, Unround;
    var h := MixBytes(seed, bytes);
    RoundInverse(h, a);
    RoundInverse(Round(h, a), b);
    BytesInverse(seed, bytes);
    RoundInverse(seed, b);
    RoundInverse(Unround(seed, b), a);
    BytesInverse(Unround(Unround(seed, b), a), bytes);
  }

  /** For one seed and operation, different coordinates in one place never give the same hash. */
  lemma MixSeparatesCoordinates(seed: u64, bytes: seq<u64>, a: u64, a': u64, b: u64, b': u64)
    ensures MixSpec(seed, bytes, a, b) == MixSpec(seed, bytes, a', b) <==> a == a'
    ensures MixSpec(seed, bytes, a, b) == MixSpec(seed, bytes, a, b') <==> b == b'
  {
    hide Round, Unround;
    var h := MixBytes(seed, bytes);
    RoundInjective(Round(h, a), b, b');
    RoundInverse(Round(h, a), b);
    RoundInverse(Round(h, a'), b);
    RoundInjective(h, a, a');
  }

  // ---------------------------------------------------------------- noise values

  /** One of the four 16-bit lanes of a hash, as a delta; Rust and JavaScript compute it alike. */
  function Lane(h: nat, k: nat): (d: int)
    ensures -3 <= d <= 3
  {
    And(Shr(h, 16 * k), 0xFFFF) % 7 - 3
  }

  /** `bounded_bytes`, and `_bb` of the port. */
  function BoundedBytes(h: nat): (int, int, int, int) {
    (Lane(h, 0), Lane(h, 1), Lane(h, 2), Lane(h, 3))
  }

  lemma LaneIs(h: nat, k: nat)
    ensures Lane(h, k) == h / Pow2(16 * k) % 0x1_0000 % 7 - 3
  {
    Pow2Is64();
    MaskIsMod(Shr(h, 16 * k), 16);
    ShrDivides(h, 16 * k);
  }

  /** The components are the residues of the four lanes of the hash, the lowest lane first. */
  lemma BoundedBytesAre(h: nat, a: nat, b: nat, d: nat, e: nat)
    requires a < 0x1_0000 && b < 0x1_0000 && d < 0x1_0000 && e < 0x1_0000
    requires h == a + 0x1_0000 * b + 0x1_0000_0000 * d + 0x1_0000_0000_0000 * e
    ensures BoundedBytes(h) == (a % 7 - 3, b % 7 - 3, d % 7 - 3, e % 7 - 3)
  {
    LanePowers();
    hide Lane, Pow2;
    LaneIs(h, 0);
    LaneIs(h, 1);
    LaneIs(h, 2);
    LaneIs(h, 3);
    DivUnique(h, 0x1_0000, b + 0x1_0000 * d + 0x1_0000_0000 * e, a);
    DivUnique(h, 0x1_0000_0000, d + 0x1_0000 * e, a + 0x1_0000 * b);
    DivUnique(h, 0x1_0000_0000_0000, e, a + 0x1_0000 * b + 0x1_0000_0000 * d);
    DivUnique(b + 0x1_0000 * d + 0x1_0000_0000 * e, 0x1_0000, d + 0x1_0000 * e, b);
    DivUnique(d + 0x1_0000 * e, 0x1_0000, e, d);
  }

  lemma LanePowers()
    ensures Pow2(0) == 1 && Pow2(16) == 0x1_0000 && Pow2(32) == 0x1_0000_0000 && Pow2(48) == 0x1_0000_0000_0000
  {
    Pow2Is64();
    Pow2Add(16, 32);
  }

  function Sixths(d: (int, int, int, int)): (real, real, real, real) {
    (d.0 as real / 6.0, d.1 as real / 6.0, d.2 as real / 6.0, d.3 as real / 6.0)
  }

  function PixelNoise(seed: u64, operation: string, x: u64, y: u64): (int, int, int, int) {
    BoundedBytes(MixSpec(seed, AsWords(Utf8Bytes(operation)), x, y))
  }

  function RectNoise(seed: u64, operation: string, index: u64): (real, real, real, real) {
    Sixths(BoundedBytes(MixSpec(seed, AsWords(Utf8Bytes(operation)), index, 0xDEAD_BEEF)))
  }

  const WEBGL_KEY: u64 := 0xCAFE_BABE

  /** The hash behind `webgl_noise`: `y ^ 0xCAFE_BABE` is a `u32`. */
  function WebglHash(seed: u64, operation: string, x: u64, y: u64): u64
    requires y < 0x1_0000_0000
  {
    KeyedY(y);
    MixSpec(seed, AsWords(Utf8Bytes(operation)), x, Xor(y, WEBGL_KEY))
  }

  lemma KeyedY(y: nat)
    requires y < 0x1_0000_0000
    ensures Xor(y, WEBGL_KEY) < 0x1_0000_0000
  {
    Pow2Is64();
    XorBound(y, WEBGL_KEY, 32);
  }

  const DENOMINATOR: real := 9007199254740991.0

  /** `float_noise`, over the reals: the 53 upper bits travel as a high and a low part. */
  function FloatNoise(seed: u64, operation: string, index: u64): real {
    var h := MixSpec(seed, AsWords(Utf8Bytes(operation)), index, 0);
    var upper53 := Shr(h, 11);
    var high := And(Shr(upper53, 21), 0xFFFF_FFFF);
    var low := And(upper53, 0x1F_FFFF);
    ((high as real * 2097152.0 + low as real) / DENOMINATOR - 0.5) * 0.00002
  }

  /**
   What each kind of noise makes of the hash of its own coordinates: pixels and WebGL the lanes, with `y`
   keyed for WebGL; rectangles a sixth of the lanes; floats the upper 53 bits, spread evenly over their interval.
   */
  lemma NoiseOfHash(seed: u64, operation: string, x: u64, y: u64)
    requires y < 0x1_0000_0000
    ensures PixelNoise(seed, operation, x, y) == BoundedBytes(HashOf(seed, operation, x, y))
    ensures var rect, lanes := RectNoise(seed, operation, x), BoundedBytes(HashOf(seed, operation, x, 0xDEAD_BEEF));
            && rect.0 * 6.0 == lanes.0 as real && rect.1 * 6.0 == lanes.1 as real
            && rect.2 * 6.0 == lanes.2 as real && rect.3 * 6.0 == lanes.3 as real
    ensures (FloatNoise(seed, operation, x) / 0.00002 + 0.5) * 9007199254740991.0
         == (HashOf(seed, operation, x, 0) / 2048) as real
    ensures WebglHash(seed, operation, x, y) == HashOf(seed, operation, x, Keyed(y))
  {
    hide Round, BoundedBytes, And, Shr, Xor, Pow2, MixBytes;
    SmallPowers();
    var h := HashOf(seed, operation, x, 0);
    HighLow(h);
    ShrDivides(h, 11);
    Spread(h / 2048, FloatNoise(seed, operation, x));
    KeyedY(y);
  }

  function HashOf(seed: u64, operation: string, a: u64, b: u64): u64 {
    Round(Round(MixBytes(seed, AsWords(Utf8Bytes(operation))), a), b)
  }

  function Keyed(y: nat): u64
    requires y < 0x1_0000_0000
  {
    KeyedY(y);
    Xor(y, 0xCAFE_BABE)
  }

  lemma Spread(u: nat, r: real)
    requires r == (u as real / DENOMINATOR - 0.5) * 0.00002
    ensures (r / 0.00002 + 0.5) * 9007199254740991.0 == u as real
  {
  }

  lemma RoundProducts()
    ensures WrapAdd(WrapMul(0xf1de_83e1_9937_733d, M), 0) == 1
    ensures WrapAdd(WrapMul(0x8000_0000_0000_0000, M), 0) == 0x8000_0000_0000_0000
  {
  }

  lemma TopBitShifts()
    ensures ShiftMix(0x8000_0000_0000_0000, 33) == 0x8000_0000_4000_0000
  {
    hide Pow2, Shr, Xor;
    SmallPowers();
    ShrDivides(0x8000_0000_0000_0000, 33);
    XorSplit(0x1_0000_0000, 0, 0, 0x4000_0000, 31);
    XorZero(0x1_0000_0000);
    XorZero(0x4000_0000);
  }

  /** The constant and the shift of a round, by two of its values. */
  lemma RoundConstants()
    ensures Round(0xf1de_83e1_9937_733d, 0) == 1
    ensures Round(0x8000_0000_0000_0000, 0) == 0x8000_0000_4000_0000
  {
    hide ShiftMix, WrapMul, WrapAdd;
    RoundProducts();
    SmallShift(1);
    TopBitShifts();
  }

  // ---------------------------------------------------------------- the JavaScript port

  // A BigInt is an unbounded integer; `& _MASK` keeps the lowest 64 bits of its two's complement.

  const MASK: nat := 0xFFFF_FFFF_FFFF_FFFF

  function JsRound(h: int, v: int): nat {
    var h1 := And(h * M + v, MASK);
    And(Xor(h1, Shr(h1, 33)), MASK)
  }

  function JsMixUnits(h: int, units: seq<nat>): int {
    if units == [] then h else JsRound(JsMixUnits(h, units[..|units| - 1]), units[|units| - 1])
  }

  /** `_mix` of the port. */
  function JsMix(seed: int, units: seq<nat>, a: int, b: int): nat {
    JsRound(JsRound(JsMixUnits(seed, units), a), b)
  }

  /** `x >>> 0`: ToUint32 of an integral number (section 9.6 of ECMA-262, fifth edition). */
  function ToUint32(x: int): nat {
    x % 0x1_0000_0000
  }

  /** `x ^ y` on Numbers yields a signed 32-bit value. */
  function JsXor(x: nat, y: nat): int
  {
    var r := ToUint32(Xor(ToUint32(x), ToUint32(y)));
    if r >= 0x8000_0000 then r - 0x1_0000_0000 else r
  }

  function JsPixelNoise(seed: u64, operation: string, x: int, y: int): (int, int, int, int) {
    BoundedBytes(JsMix(seed, Utf16Units(operation), ToUint32(x), ToUint32(y)))
  }

  function JsRectNoise(seed: u64, operation: string, index: int): (real, real, real, real) {
    Sixths(BoundedBytes(JsMix(seed, Utf16Units(operation), ToUint32(index), 0xDEADBEEF)))
  }

  function JsFloatNoise(seed: u64, operation: string, index: int): real {
    var h := JsMix(seed, Utf16Units(operation), ToUint32(index), 0);
    var upper53 := Shr(h, 11);
    (upper53 as real / DENOMINATOR - 0.5) * 0.00002
  }

  function JsWebglHash(seed: u64, operation: string, x: int, y: int): nat {
    JsMix(seed, Utf16Units(operation), ToUint32(x), JsXor(ToUint32(y), WEBGL_KEY))
  }

  function Word(v: int): u64 {
    v % TWO64
  }

  /** A masked BigInt round is the wrapping round, whatever integer is mixed in. */
  lemma JsRoundIsRound(h: u64, v: int)
    ensures JsRound(h, v) == Round(h, Word(v))
  {
    hide And, Xor, Shr, Pow2;
    Pow2Is64();
    MaskIsMod(h * M + v, 64);
    SumWraps(h * M, v);
    var h1 := WrapAdd(WrapMul(h, M), Word(v));
    assert And(h * M + v, MASK) == h1;
    var r := ShiftMix(h1, 33);
    MaskIsMod(r, 64);
    SmallWord(r);
    assert JsRound(h, v) == And(Xor(h1, Shr(h1, 33)), MASK) == And(r, MASK);
  }

  lemma SmallWord(x: u64)
    ensures x % TWO64 == x
  {
  }

  lemma SumWraps(p: nat, v: int)
    ensures (p % TWO64 + v % TWO64) % TWO64 == (p + v) % TWO64
  {
  }

  lemma {:induction false} JsUnitsAreBytes(h: u64, units: seq<nat>)
    requires forall k :: 0 <= k < |units| ==> units[k] < 0x1_0000
    ensures JsMixUnits(h, units) == MixBytes(h, AsWords(units))
  {
    hide Round, JsRound;
    if units != [] {
      var p, v := units[..|units| - 1], units[|units| - 1];
      JsUnitsAreBytes(h, p);
      JsRoundIsRound(MixBytes(h, AsWords(p)), v);
      SmallWord(v);
    }
  }

  /** The port mixes the code units it is given exactly as the Rust mixer mixes bytes. */
  lemma JsMixIsMix(seed: u64, units: seq<nat>, a: int, b: int)
    requires forall k :: 0 <= k < |units| ==> units[k] < 0x1_0000
    ensures JsMix(seed, units, a, b) == MixSpec(seed, AsWords(units), Word(a), Word(b))
  {
    hide Round, JsRound;
    JsUnitsAreBytes(seed, units);
    JsRoundIsRound(MixBytes(seed, AsWords(units)), a);
    JsRoundIsRound(Round(MixBytes(seed, AsWords(units)), Word(a)), b);
  }

  /** For ASCII operations the port agrees with Rust on pixel, rectangle and float noise. */
  lemma PortAgrees(seed: u64, operation: string, x: u64, y: u64)
    requires Ascii(operation) && x < 0x1_0000_0000 && y < 0x1_0000_0000
    ensures JsPixelNoise(seed, operation, x, y) == PixelNoise(seed, operation, x, y)
    ensures JsRectNoise(seed, operation, x) == RectNoise(seed, operation, x)
    ensures JsFloatNoise(seed, operation, x) == FloatNoise(seed, operation, x)
  {
    hide MixSpec, JsMix, Lane, And, Shr;
    var units := Utf16Units(operation);
    SameEncodingIffAscii(operation);
    JsMixIsMix(seed, units, x, y);
    JsMixIsMix(seed, units, x, 0xDEADBEEF);
    JsMixIsMix(seed, units, x, 0);
    HighLow(MixSpec(seed, AsWords(units), x, 0));
  }

  /** The port takes any integers as coordinates, and reduces them to 32 bits. */
  lemma PortReducesCoordinates(seed: u64, operation: string, x: int, y: int)
    ensures JsPixelNoise(seed, operation, x, y)
         == JsPixelNoise(seed, operation, x % 0x1_0000_0000, y % 0x1_0000_0000)
    ensures JsRectNoise(seed, operation, x) == JsRectNoise(seed, operation, x % 0x1_0000_0000)
    ensures JsFloatNoise(seed, operation, x) == JsFloatNoise(seed, operation, x % 0x1_0000_0000)
    ensures JsWebglHash(seed, operation, x, y)
         == JsWebglHash(seed, operation, x % 0x1_0000_0000, y % 0x1_0000_0000)
  {
    hide JsMix, BoundedBytes, Sixths, JsXor, Shr;
    assert ToUint32(x % 0x1_0000_0000) == ToUint32(x) && ToUint32(y % 0x1_0000_0000) == ToUint32(y);
    hide ToUint32;
  }

  /** Splitting the upper 53 bits and putting them together again changes nothing. */
  lemma HighLow(h: u64)
    ensures var u := Shr(h, 11);
            u <= 0x1F_FFFF_FFFF_FFFF && And(Shr(u, 21), 0xFFFF_FFFF) * 2097152 + And(u, 0x1F_FFFF) == u
  {
    SmallPowers();
    hide And, Shr, Pow2;
    var u := Shr(h, 11);
    ShrDivides(h, 11);
    ShrDivides(u, 21);
    MaskIsMod(Shr(u, 21), 32);
    MaskIsMod(u, 21);
    assert u == h / 2048;
    assert u / 2097152 < 0x1_0000_0000;
  }

  lemma SmallPowers()
    ensures Pow2(11) == 2048 && Pow2(21) == 2097152 && Pow2(31) == 0x8000_0000
    ensures Pow2(32) == 0x1_0000_0000 && Pow2(33) == 0x2_0000_0000
  {
    Pow2Is64();
    assert Pow2(5) == 32 && Pow2(10) == 1024;
    Pow2Add(1, 10);
    Pow2Add(16, 5);
    Pow2Add(21, 10);
    Pow2Add(1, 32);
  }

  /** Float noise stays within a hundred-thousandth of zero. */
  lemma FloatNoiseRange(seed: u64, operation: string, index: u64)
    ensures -0.00001 <= FloatNoise(seed, operation, index) <= 0.00001
  {
    hide MixSpec, And, Shr;
    var h := MixSpec(seed, AsWords(Utf8Bytes(operation)), index, 0);
    HighLow(h);
    var u := Shr(h, 11) as real;
    assert 0.0 <= u / DENOMINATOR <= 1.0;
  }

  // ---------------------------------------------------------------- small words

  lemma SmallShift(v: nat)
    requires v < 0x2_0000_0000
    ensures ShiftMix(v, 33) == v
  {
    hide Shr, Pow2, Xor;
    SmallPowers();
    ShrDivides(v, 33);
    XorZero(v);
  }

  /** From the zero state a small value is mixed in unchanged. */
  lemma FromZero(v: nat)
    requires v < 0x2_0000_0000
    ensures MixBytes(0, [v]) == v
  {
    hide ShiftMix;
    assert [v][..0] == [];
    SmallShift(v);
  }

  // ---------------------------------------------------------------- WebGL noise

  lemma TopBit(y: nat)
    requires y < 0x1_0000_0000
    ensures Xor(y, WEBGL_KEY) < 0x8000_0000 <==> y >= 0x8000_0000
  {
    hide Xor, Shr, Pow2;
    KeyedY(y);
    SmallPowers();
    ShrXor(y, WEBGL_KEY, 31);
    ShrDivides(y, 31);
    ShrDivides(WEBGL_KEY, 31);
    ShrDivides(Xor(y, WEBGL_KEY), 31);
    OneBit(y / 0x8000_0000);
  }

  lemma OneBit(top: nat)
    requires top <= 1
    ensures Xor(top, 1) == 1 - top
  {
  }

  /**
   WebGL noise: the hashes agree exactly when `y >= 2^31`. Below that the `^` of JavaScript
   yields a negative number, and a negative number is not the word Rust mixes in.
   */
  lemma WebglAgreesIff(seed: u64, operation: string, x: u64, y: u64)
    requires Ascii(operation) && x < 0x1_0000_0000 && y < 0x1_0000_0000
    ensures JsWebglHash(seed, operation, x, y) == WebglHash(seed, operation, x, y) <==> y >= 0x8000_0000
  {
    hide Round, Xor, MixSpec, JsMix, MixBytes;
    SameEncodingIffAscii(operation);
    KeyedY(y);
    TopBit(y);
    var units := AsWords(Utf16Units(operation));
    var r := JsXor(y, WEBGL_KEY);
    JsMixIsMix(seed, units, x, r);
    SmallWord(y);
    if y < 0x8000_0000 {
      MixSeparatesCoordinates(seed, units, x, x, Word(r), Xor(y, WEBGL_KEY));
    }
  }

  /** A pixel on which the two disagree: seed 0, an empty operation name, the origin. */
  lemma WebglDiffersAtOrigin()
    ensures BoundedBytes(JsWebglHash(0, "", 0, 0)).2 == -2
    ensures BoundedBytes(WebglHash(0, "", 0, 0)).2 == -3
  {
    hide *;
    RustAtOrigin();
    JsAtOrigin();
    LanesAtOrigin();
  }

  lemma ThirdLane(h: nat, hi: nat, lo: nat, d: nat)
    requires h == 0x1_0000_0000 * hi + lo && lo < 0x1_0000_0000 && d == hi % 0x1_0000
    ensures BoundedBytes(h).2 == d % 7 - 3
  {
    hide Lane, Pow2;
    Pow2Is64();
    LaneIs(h, 2);
    DivUnique(h, 0x1_0000_0000, hi, lo);
  }

  lemma LanesAtOrigin()
    ensures BoundedBytes(0xFFFF_FFFF_B501_4541).2 == -2 && BoundedBytes(0xCAFE_BABE).2 == -3
  {
    hide *;
    ThirdLane(0xFFFF_FFFF_B501_4541, 0xFFFF_FFFF, 0xB501_4541, 0xFFFF);
    ThirdLane(0xCAFE_BABE, 0, 0xCAFE_BABE, 0);
  }

  lemma RoundOfZero()
    ensures Round(0, 0) == 0
  {
    hide ShiftMix;
    SmallShift(0);
  }

  lemma RustAtOrigin()
    ensures WebglHash(0, "", 0, 0) == 0xCAFE_BABE
  {
    hide Shr, Pow2, Xor;
    RoundOfZero();
    KeyedY(0);
    SmallPowers();
    ShrDivides(WEBGL_KEY, 33);
    XorZero(WEBGL_KEY);
    assert Utf8Bytes("") == [];
    assert Round(0, WEBGL_KEY) == WEBGL_KEY;
  }

  lemma XorAtOrigin()
    ensures Xor(0xFFFF_FFFF_CAFE_BABE, 0x7FFF_FFFF) == 0xFFFF_FFFF_B501_4541
  {
    hide Xor, Pow2;
    SmallPowers();
    XorSplit(0x1_FFFF_FFFF, 0x4AFE_BABE, 0, 0x7FFF_FFFF, 31);
    XorZero(0x1_FFFF_FFFF);
    XorOnes(0x4AFE_BABE, 31);
  }

  lemma JsAtOrigin()
    ensures JsWebglHash(0, "", 0, 0) == 0xFFFF_FFFF_B501_4541
  {
    hide Shr, Pow2, Xor, JsMix;
    RoundOfZero();
    XorZero(WEBGL_KEY);
    assert JsXor(0, WEBGL_KEY) == -0x3501_4542;
    JsMixIsMix(0, [], 0, -0x3501_4542);
    var v := Word(-0x3501_4542);
    assert v == 0xFFFF_FFFF_CAFE_BABE;
    SmallPowers();
    ShrDivides(v, 33);
    XorAtOrigin();
    assert Utf16Units("") == [];
    assert Round(0, v) == 0xFFFF_FFFF_B501_4541;
  }
}
