/**
 The two encodings of a string that matter here: the UTF-8 bytes Rust stores (section 3 of
 RFC 3629) and the UTF-16 code units JavaScript indexes. A `char` is a Unicode scalar value.
 */
module Unicode {
  /** `char::len_utf8`. */
  function Utf8Len(c: char): (n: nat)
    ensures 1 <= n <= 4
  {
    var v := c as int;
    if v < 0x80 then 1 else if v < 0x800 then 2 else if v < 0x1_0000 then 3 else 4
  }

  function Utf8(c: char): (bytes: seq<nat>)
    ensures |bytes| == Utf8Len(c) && forall k :: 0 <= k < |bytes| ==> bytes[k] < 256
  {
    var v := c as int;
    if v < 0x80 then [v]
    else if v < 0x800 then [0xC0 + v / 0x40, 0x80 + v % 0x40]
    else if v < 0x1_0000 then [0xE0 + v / 0x1000, 0x80 + v / 0x40 % 0x40, 0x80 + v % 0x40]
    else [0xF0 + v / 0x4_0000, 0x80 + v / 0x1000 % 0x40, 0x80 + v / 0x40 % 0x40, 0x80 + v % 0x40]
  }

  function Utf16(c: char): (units: seq<nat>)
    ensures forall k :: 0 <= k < |units| ==> units[k] < 0x1_0000
  {
    var v := c as int;
    if v < 0x1_0000 then [v]
    else [0xD800 + (v - 0x1_0000) / 0x400, 0xDC00 + (v - 0x1_0000) % 0x400]
  }

  /** How many bytes a character takes, as its first byte tells. */
  function LengthOf(first: nat): nat {
    if first < 0x80 then 1 else if 0xC2 <= first < 0xE0 then 2 else if 0xE0 <= first < 0xF0 then 3
    else if 0xF0 <= first < 0xF5 then 4 else 0
  }

  /** The bits a UTF-8 sequence carries, those of the first byte in front. */
  function Utf8Value(bytes: seq<int>): int
    requires |bytes| > 0
  {
    if |bytes| == 1 then bytes[0]
    else if |bytes| == 2 then (bytes[0] - 0xC0) * 0x40 + (bytes[1] - 0x80)
    else if |bytes| == 3 then (bytes[0] - 0xE0) * 0x1000 + (bytes[1] - 0x80) * 0x40 + (bytes[2] - 0x80)
    else if |bytes| == 4 then
      (bytes[0] - 0xF0) * 0x4_0000 + (bytes[1] - 0x80) * 0x1000 + (bytes[2] - 0x80) * 0x40 + (bytes[3] - 0x80)
    else 0
  }

  /** A number in groups of six bits. */
  lemma Sextets(v: nat)
    ensures v == v / 0x40 * 0x40 + v % 0x40
    ensures v == v / 0x1000 * 0x1000 + v / 0x40 % 0x40 * 0x40 + v % 0x40
    ensures v == v / 0x4_0000 * 0x4_0000 + v / 0x1000 % 0x40 * 0x1000 + v / 0x40 % 0x40 * 0x40 + v % 0x40
  {
    assert v / 0x40 / 0x40 == v / 0x1000 && v / 0x1000 / 0x40 == v / 0x4_0000;
  }

  lemma Two(a: nat, b: nat)
    ensures Utf8Value([0xC0 + a, 0x80 + b]) == a * 0x40 + b
  {
  }

  lemma Three(a: nat, b: nat, c: nat)
    ensures Utf8Value([0xE0 + a, 0x80 + b, 0x80 + c]) == a * 0x1000 + b * 0x40 + c
  {
  }

  lemma Four(a: nat, b: nat, c: nat, d: nat)
    ensures Utf8Value([0xF0 + a, 0x80 + b, 0x80 + c, 0x80 + d]) == a * 0x4_0000 + b * 0x1000 + c * 0x40 + d
  {
  }

  /** A character's bytes are its only UTF-8 form: the first one tells their number, the others carry six bits each. */
  lemma Utf8Decodes(c: char)
    ensures var bytes := Utf8(c);
            && LengthOf(bytes[0]) == |bytes| && Utf8Value(bytes) == c as int
            && forall k :: 1 <= k < |bytes| ==> 0x80 <= bytes[k] < 0xC0
  {
    var v := c as int;
    Sextets(v);
    assert Utf8Value(Utf8(c)) == v by {
      hide Utf8Len;
      if v < 0x80 {
        assert Utf8(c) == [v];
      } else if v < 0x800 {
        Two(v / 0x40, v % 0x40);
      } else if v < 0x1_0000 {
        Three(v / 0x1000, v / 0x40 % 0x40, v % 0x40);
      } else {
        Four(v / 0x4_0000, v / 0x1000 % 0x40, v / 0x40 % 0x40, v % 0x40);
      }
      hide Utf8Value;
    }
    hide Utf8Value;
  }

  /** A character's UTF-16 form is itself, or a high and a low surrogate with ten bits each. */
  lemma Utf16Decodes(c: char)
    ensures var units := Utf16(c);
            if |units| == 1 then units[0] == c as int
            else
              && |units| == 2 && 0xD800 <= units[0] < 0xDC00 && 0xDC00 <= units[1] < 0xE000
              && 0x1_0000 + (units[0] - 0xD800) * 0x400 + (units[1] - 0xDC00) == c as int
  {
  }

  /** `str::bytes`. */
  function Utf8Bytes(s: string): (bytes: seq<nat>)
    ensures forall k :: 0 <= k < |bytes| ==> bytes[k] < 256
  {
    if s == [] then [] else Utf8Bytes(s[..|s| - 1]) + Utf8(s[|s| - 1])
  }

  /** What `charCodeAt` yields for the indices of a JavaScript string. */
  function Utf16Units(s: string): (units: seq<nat>)
    ensures forall k :: 0 <= k < |units| ==> units[k] < 0x1_0000
  {
    if s == [] then [] else Utf16Units(s[..|s| - 1]) + Utf16(s[|s| - 1])
  }

  predicate Ascii(s: string) {
    forall k :: 0 <= k < |s| ==> s[k] < '\U{80}'
  }

  /** The encodings coincide on ASCII strings, and only on them. */
  lemma {:induction false} SameEncodingIffAscii(s: string)
    ensures Utf8Bytes(s) == Utf16Units(s) <==> Ascii(s)
    ensures |Utf8Bytes(s)| >= |Utf16Units(s)| && (!Ascii(s) ==> |Utf8Bytes(s)| > |Utf16Units(s)|)
  {
    if s != [] {
      var p := s[..|s| - 1];
      SameEncodingIffAscii(p);
      assert forall k :: 0 <= k < |p| ==> p[k] == s[k];
      assert Ascii(s) <==> Ascii(p) && s[|s| - 1] < '\U{80}';
    }
  }

  lemma {:induction false} BytesAppend(a: string, b: string)
    ensures Utf8Bytes(a + b) == Utf8Bytes(a) + Utf8Bytes(b)
    decreases |b|
  {
    hide Utf8;
    if b == [] {
      assert a + b == a;
    } else {
      assert (a + b)[..|a + b| - 1] == a + b[..|b| - 1];
      BytesAppend(a, b[..|b| - 1]);
    }
  }

  lemma {:induction false} UnitsAppend(a: string, b: string)
    ensures Utf16Units(a + b) == Utf16Units(a) + Utf16Units(b)
  {
    hide Utf16;
    if b == [] {
      assert a + b == a;
    } else {
      assert (a + b)[..|a + b| - 1] == a + b[..|b| - 1];
      UnitsAppend(a, b[..|b| - 1]);
    }
  }
}
