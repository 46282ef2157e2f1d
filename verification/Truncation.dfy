/** Cutting an HTML excerpt to a byte budget without splitting a character. */
module Truncation {
  import opened Unicode

  /** The longest prefix of whole characters that fits: characters go from the end until it does. */
  function Truncated(html: string, maxBytes: nat): string {
    if |Utf8Bytes(html)| <= maxBytes then html else Truncated(html[..|html| - 1], maxBytes)
  }

  lemma {:induction false} PrefixBytes(html: string, k: nat)
    requires k <= |html|
    ensures |Utf8Bytes(html[..k])| <= |Utf8Bytes(html)| && (k < |html| ==> |Utf8Bytes(html[..k])| < |Utf8Bytes(html)|)
  {
    if k < |html| {
      var p := html[..|html| - 1];
      assert p[..k] == html[..k];
      PrefixBytes(p, k);
    } else {
      assert html[..k] == html;
    }
  }

  /** `out` is the longest prefix of `html` in whole characters that fits the budget. */
  ghost predicate IsExcerpt(out: string, html: string, maxBytes: nat) {
    && out <= html && |Utf8Bytes(out)| <= maxBytes
    && forall k :: |out| < k <= |html| ==> |Utf8Bytes(html[..k])| > maxBytes
  }

  /**
   The result fits the budget, is a prefix in characters and in bytes, equals the input when that
   fits, and no longer prefix fits.
   */
  lemma {:induction false} TruncatedIsLongest(html: string, maxBytes: nat)
    ensures var out := Truncated(html, maxBytes);
            && IsExcerpt(out, html, maxBytes)
            && Utf8Bytes(out) <= Utf8Bytes(html)
            && (out == html <==> |Utf8Bytes(html)| <= maxBytes)
  {
    if |Utf8Bytes(html)| > maxBytes {
      var p := html[..|html| - 1];
      TruncatedIsLongest(p, maxBytes);
      var out := Truncated(html, maxBytes);
      assert Utf8Bytes(html) == Utf8Bytes(p) + Utf8(html[|html| - 1]);
      forall k | |out| < k <= |html| ensures |Utf8Bytes(html[..k])| > maxBytes {
        if k < |html| {
          assert p[..k] == html[..k];
        } else {
          assert html[..k] == html;
        }
      }
    }
  }

  /** Where the first character that does not fit stands, the cut is. */
  lemma {:induction false} CutIsTruncated(html: string, maxBytes: nat, k: nat)
    requires k < |html| && |Utf8Bytes(html[..k])| <= maxBytes < |Utf8Bytes(html[..k + 1])|
    ensures Truncated(html, maxBytes) == html[..k]
  {
    var p := html[..|html| - 1];
    PrefixBytes(html, k + 1);
    if k == |html| - 1 {
      assert html[..k + 1] == html;
    } else {
      assert p[..k] == html[..k] && p[..k + 1] == html[..k + 1];
      CutIsTruncated(p, maxBytes, k);
    }
  }

  /** `truncate_html`. */
  method TruncateHtml(html: string, maxBytes: nat) returns (out: string)
    ensures out == Truncated(html, maxBytes)
  {
    if |Utf8Bytes(html)| <= maxBytes {
      return html;
    }
    assert html[..|html|] == html;
    out := "";
    var i := 0;
    while i < |html|
      invariant i <= |html| && out == html[..i] && |Utf8Bytes(out)| <= maxBytes
    {
      var ch := html[i];
      assert html[..i + 1][..i] == html[..i];
      assert |Utf8Bytes(html[..i + 1])| == |Utf8Bytes(out)| + Utf8Len(ch);
      if |Utf8Bytes(out)| + Utf8Len(ch) > maxBytes {
        CutIsTruncated(html, maxBytes, i);
        return;
      }
      out := out + [ch];
      i := i + 1;
    }
  }
}
