/** The retry loop around session creation, and its exponential backoff. */
module Retry {
  import opened Options
  import opened Bits

  const U64_MAX: nat := 0xFFFF_FFFF_FFFF_FFFF

  type u64 = x: nat | x <= U64_MAX
  newtype u8 = x: int | 0 <= x < 256

  /** `u64::saturating_mul`. */
  function SaturatingMul(a: nat, b: nat): u64 {
    if a * b > U64_MAX then U64_MAX else a * b
  }

  /** `backoff_delay_ms`. */
  function BackoffDelayMs(baseMs: u64, attempt: u8): u64 {
    var shift: nat := if attempt > 62 then 62 else attempt as nat;
    SaturatingMul(baseMs, Pow2(shift))
  }

  datatype Response = Created(id: string) | RateLimited(retryAfterMs: Option<u64>) | Failed(reason: string)

  /** The pause before the retry that follows call number `i`, counting from zero. */
  function Pause(response: Response, baseMs: u64, i: u8): u64
    requires response.RateLimited?
  {
    match response.retryAfterMs
    case Some(ms) => ms
    case None => BackoffDelayMs(baseMs, i)
  }

  /**
   `create_browserbase_session_with_retry`; `responses(i)` is what call number `i` would return.
   Every call but the last was rate limited, the last was not unless the retries ran out, and
   before each retry the loop paused as told.
   */
  method CreateWithRetry(responses: nat -> Response, maxRetries: u8, baseMs: u64)
    returns (result: Response, calls: nat, pauses: seq<u64>)
    ensures 1 <= calls <= maxRetries as nat + 1
    ensures result == responses(calls - 1)
    ensures forall i :: 0 <= i < calls - 1 ==> responses(i).RateLimited?
    ensures result.RateLimited? ==> calls == maxRetries as nat + 1
    ensures |pauses| == calls - 1
    ensures forall i :: 0 <= i < calls - 1 ==> pauses[i] == Pause(responses(i), baseMs, i as u8)
    ensures forall i, ms :: 0 <= i < calls - 1 && responses(i) == RateLimited(Some(ms)) ==> pauses[i] == ms
    ensures forall i :: 0 <= i < calls - 1 && responses(i) == RateLimited(None) ==>
              pauses[i] == BackoffDelayMs(baseMs, i as u8)
  {
    var attempt: u8 := 0;
    pauses := [];
    while true
      invariant attempt <= maxRetries && |pauses| == attempt as nat
      invariant forall i :: 0 <= i < attempt as nat ==> responses(i).RateLimited?
      invariant forall i :: 0 <= i < attempt as nat ==> pauses[i] == Pause(responses(i), baseMs, i as u8)
      decreases maxRetries as int - attempt as int
    {
      result := responses(attempt as nat);
      if result.RateLimited? && attempt < maxRetries {
        pauses := pauses + [Pause(result, baseMs, attempt)];
        attempt := attempt + 1;
      } else {
        return result, attempt as nat + 1, pauses;
      }
    }
  }

  function Sum(xs: seq<u64>): nat {
    if xs == [] then 0 else Sum(xs[..|xs| - 1]) + xs[|xs| - 1]
  }

  lemma Unsaturated(baseMs: u64, k: nat)
    requires k <= 62 && baseMs * Pow2(k) <= U64_MAX
    ensures BackoffDelayMs(baseMs, k as u8) == baseMs * Pow2(k)
  {
    hide Pow2;
  }

  lemma OneMore(b: nat, p: nat)
    ensures b * (p - 1) + b * p == b * (2 * p - 1)
  {
  }

  /** Without hints, and as long as nothing saturates, k retries pause for base * (2^k - 1) in total. */
  lemma {:induction false} TotalPause(pauses: seq<u64>, baseMs: u64)
    requires |pauses| <= 63
    requires forall i :: 0 <= i < |pauses| ==> pauses[i] == BackoffDelayMs(baseMs, i as u8)
    requires |pauses| > 0 ==> baseMs * Pow2(|pauses| - 1) <= U64_MAX
    ensures Sum(pauses) == baseMs * (Pow2(|pauses|) - 1)
  {
    if pauses == [] {
      assert Pow2(0) == 1;
    } else {
      var k := |pauses| - 1;
      if k > 0 {
        MulGrows(baseMs, Pow2(k - 1), Pow2(k));
      }
      TotalPause(pauses[..k], baseMs);
      Unsaturated(baseMs, k);
      OneMore(baseMs, Pow2(k));
      assert Pow2(k + 1) == 2 * Pow2(k);
      hide Pow2, BackoffDelayMs;
    }
  }

  lemma {:induction false} Pow2Grows(j: nat, k: nat)
    requires j <= k
    ensures Pow2(j) <= Pow2(k)
  {
    if j < k { Pow2Grows(j, k - 1); }
  }

  lemma MulGrows(x: nat, a: nat, b: nat)
    requires a <= b
    ensures x * a <= x * b
  {
    if a < b { MulGap(x, a, b); }
  }

  /** The delay never shrinks from one attempt to the next. */
  lemma BackoffGrows(baseMs: u64, i: u8, j: u8)
    requires i <= j
    ensures BackoffDelayMs(baseMs, i) <= BackoffDelayMs(baseMs, j)
  {
    var a, b := if i > 62 then 62 else i as nat, if j > 62 then 62 else j as nat;
    Pow2Grows(a, b);
    MulGrows(baseMs, Pow2(a), Pow2(b));
  }

  function AtMost(x: nat, limit: nat): nat {
    if x <= limit then x else limit
  }

  lemma Pow62()
    ensures Pow2(62) == 0x4000_0000_0000_0000 && Pow2(63) == 0x8000_0000_0000_0000
  {
    assert Pow2(10) == 1024;
    assert Pow2(20) == 1024 * Pow2(10);
    assert Pow2(30) == 1024 * Pow2(20);
    assert Pow2(40) == 1024 * Pow2(30);
    assert Pow2(50) == 1024 * Pow2(40);
    assert Pow2(60) == 1024 * Pow2(50);
  }

  lemma BeyondTheCap(baseMs: u64, p: nat)
    requires p >= 0x8000_0000_0000_0000
    ensures SaturatingMul(baseMs, 0x4000_0000_0000_0000) == SaturatingMul(baseMs, p) <==> baseMs == 0 || baseMs >= 4
  {
    MulGrows(baseMs, 0x8000_0000_0000_0000, p);
    if baseMs == 0 {
      assert baseMs * p == 0;
    }
  }

  /**
   The documentation promises `base * 2^attempt`, saturating. The shift is capped at 62, so the
   promise holds exactly for attempts up to 62, and beyond them when the base is zero or the
   capped product saturates anyway.
   */
  lemma BackoffAsDocumentedIff(baseMs: u64, attempt: u8)
    ensures BackoffDelayMs(baseMs, attempt) == AtMost(baseMs * Pow2(attempt as nat), U64_MAX)
       <==> attempt <= 62 || baseMs == 0 || baseMs >= 4
  {
    hide Pow2;
    if attempt > 62 {
      Pow62();
      Pow2Grows(63, attempt as nat);
      BeyondTheCap(baseMs, Pow2(attempt as nat));
    }
  }
}
