/** The escalation ladder: which strategies a run tries, and in which order. */
module Ladder {
  import opened Options

  datatype Strategy =
    | DirectHttp
    | TlsProfiledHttp
    | BrowserLightStealth
    | StickyProxyBrowserSession
    | BrowserbaseManagedSession
    | InvestigateEntry

  datatype Mode = Fast | Resilient | Hostile | Investigate

  predicate Distinct<T(==)>(s: seq<T>) {
    forall i, j :: 0 <= i < j < |s| ==> s[i] != s[j]
  }

  lemma DistinctPrefix<T>(s: seq<T>, n: nat)
    requires Distinct(s) && n < |s|
    ensures s[n] !in s[..n]
  {
  }

  /** Where `x` first occurs in `s`; `|s|` when it does not. */
  function FirstIndex<T(==)>(s: seq<T>, x: T): (k: nat)
    ensures k <= |s| && (k < |s| <==> x in s) && (k < |s| ==> s[k] == x)
    ensures forall i :: 0 <= i < k ==> s[i] != x
  {
    if s == [] || s[0] == x then 0 else 1 + FirstIndex(s[1..], x)
  }

  /** What is left of `s` when every later copy of an element is dropped. */
  function Deduped<T(==)>(s: seq<T>): seq<T> {
    if s == [] then []
    else
      var kept := Deduped(s[..|s| - 1]);
      if s[|s| - 1] in kept then kept else kept + [s[|s| - 1]]
  }

  lemma FirstIndexIs<T>(s: seq<T>, x: T, k: nat)
    requires k <= |s| && (k == |s| || s[k] == x) && forall i :: 0 <= i < k ==> s[i] != x
    ensures FirstIndex(s, x) == k
  {
  }

  lemma {:induction false} DedupedIsDistinct<T>(s: seq<T>)
    ensures Distinct(Deduped(s)) && forall x :: x in Deduped(s) <==> x in s
    ensures Distinct(s) ==> Deduped(s) == s
  {
    if s != [] {
      var p, x := s[..|s| - 1], s[|s| - 1];
      assert s == p + [x];
      DedupedIsDistinct(p);
    }
  }

  lemma DedupedMember<T>(s: seq<T>, x: T)
    ensures x in Deduped(s) <==> x in s
  {
    DedupedIsDistinct(s);
  }

  /** Deduplication keeps the elements in the order of their first occurrences. */
  lemma {:induction false} DedupedKeepsOrder<T>(s: seq<T>, i: nat, j: nat)
    requires i < j < |Deduped(s)|
    ensures Deduped(s)[i] in s && Deduped(s)[j] in s
    ensures FirstIndex(s, Deduped(s)[i]) < FirstIndex(s, Deduped(s)[j])
  {
    var n := |s| - 1;
    var p := s[..n];
    var x, y := Deduped(s)[i], Deduped(s)[j];
    assert Deduped(p)[i] == x && x in Deduped(p);
    var last := |Deduped(p)| == j;
    assert last ==> y == s[n] && y !in Deduped(p);
    assert !last ==> Deduped(p)[j] == y && y in Deduped(p);
    DedupedMember(p, x);
    DedupedMember(p, y);
    hide Distinct, FirstIndex;
    SameFirstIndex(s, n, x);
    if last {
      hide Deduped;
      assert forall m :: 0 <= m < n ==> s[m] == p[m];
      FirstIndexIs(s, y, n);
    } else {
      DedupedKeepsOrder(p, i, j);
      hide Deduped;
      SameFirstIndex(s, n, y);
    }
  }

  lemma SameFirstIndex<T>(s: seq<T>, n: nat, x: T)
    requires n <= |s| && x in s[..n]
    ensures FirstIndex(s, x) == FirstIndex(s[..n], x)
  {
    var k := FirstIndex(s[..n], x);
    assert forall i :: 0 <= i < k ==> s[i] == s[..n][i];
    FirstIndexIs(s, x, k);
  }

  /** `dedupe_preserve_order`. */
  method Dedupe<T(==)>(stages: seq<T>) returns (kept: seq<T>)
    ensures kept == Deduped(stages)
  {
    kept := [];
    var seen := [];
    for i := 0 to |stages|
      invariant kept == Deduped(stages[..i]) && seen == kept
    {
      assert stages[..i + 1][..i] == stages[..i];
      if stages[i] !in seen {
        seen := seen + [stages[i]];
        kept := kept + [stages[i]];
      }
    }
    assert stages[..|stages|] == stages;
  }

  function Stages(mode: Mode, start: Option<Strategy>): seq<Strategy> {
    match mode
    case Fast => [DirectHttp, TlsProfiledHttp, BrowserLightStealth]
    case Resilient => [DirectHttp, TlsProfiledHttp, BrowserLightStealth, StickyProxyBrowserSession]
    case Hostile => [BrowserLightStealth, StickyProxyBrowserSession, TlsProfiledHttp, DirectHttp]
    case Investigate =>
      var first := if start.Some? then start.value else BrowserLightStealth;
      [InvestigateEntry, first, StickyProxyBrowserSession, TlsProfiledHttp]
  }

  /** `strategy_ladder`. */
  function StrategyLadder(mode: Mode, start: Option<Strategy>): seq<Strategy> {
    Deduped(Stages(mode, start))
  }

  function Without<T(==)>(s: seq<T>, x: T): seq<T> {
    if s == [] then [] else Without(s[..|s| - 1], x) + (if s[|s| - 1] == x then [] else [s[|s| - 1]])
  }

  lemma {:induction false} WithoutAbsent<T>(s: seq<T>, x: T)
    requires x !in s
    ensures Without(s, x) == s
  {
    if s != [] {
      WithoutAbsent(s[..|s| - 1], x);
    }
  }

  lemma WithoutLast<T>(s: seq<T>, x: T)
    requires x !in s
    ensures Without(s + [x], x) == s
  {
    assert (s + [x])[..|s|] == s;
    WithoutAbsent(s, x);
  }

  /** The managed session goes right before the sticky session, or last when there is none. */
  function WithManaged(stages: seq<Strategy>, enabled: bool): seq<Strategy> {
    if !enabled || BrowserbaseManagedSession in stages then stages
    else
      var k := FirstIndex(stages, StickyProxyBrowserSession);
      stages[..k] + [BrowserbaseManagedSession] + stages[k..]
  }

  /** `maybe_insert_browserbase_stage`. */
  method MaybeInsertBrowserbase(stages: seq<Strategy>, enabled: bool) returns (out: seq<Strategy>)
    ensures out == WithManaged(stages, enabled)
  {
    if !enabled || BrowserbaseManagedSession in stages {
      return stages;
    }
    var pos := 0;
    while pos < |stages| && stages[pos] != StickyProxyBrowserSession
      invariant pos <= |stages| && forall i :: 0 <= i < pos ==> stages[i] != StickyProxyBrowserSession
    {
      pos := pos + 1;
    }
    FirstIndexIs(stages, StickyProxyBrowserSession, pos);
    if pos < |stages| {
      out := stages[..pos] + [BrowserbaseManagedSession] + stages[pos..];
    } else {
      out := stages + [BrowserbaseManagedSession];
    }
  }

  /**
   The insertion adds the managed session once, changes nothing else, keeps the stages distinct,
   and puts the new stage directly before the sticky session whenever there is one.
   */
  lemma ManagedComesBeforeSticky(stages: seq<Strategy>, enabled: bool) returns (out: seq<Strategy>)
    requires Distinct(stages)
    ensures out == WithManaged(stages, enabled) && Distinct(out)
    ensures Without(out, BrowserbaseManagedSession) == Without(stages, BrowserbaseManagedSession)
    ensures BrowserbaseManagedSession in out <==> enabled || BrowserbaseManagedSession in stages
    ensures out != stages ==>
              var k := FirstIndex(out, BrowserbaseManagedSession);
              && k < |out|
              && (if k + 1 < |out| then out[k + 1] == StickyProxyBrowserSession
                  else StickyProxyBrowserSession !in out)
  {
    out := stages;
    if enabled && BrowserbaseManagedSession !in stages {
      var m, n := BrowserbaseManagedSession, StickyProxyBrowserSession;
      var k := ManagedInserted(stages);
      out := stages[..k] + [m] + stages[k..];
      hide *;
      InsertedOnce(stages, k, m, m);
      NextToInserted(stages, k, m, n);
      WithoutInserted(stages[..k], stages[k..], m);
      assert stages[..k] + stages[k..] == stages;
    }
  }

  lemma ManagedInserted(stages: seq<Strategy>) returns (k: nat)
    requires BrowserbaseManagedSession !in stages
    ensures k <= |stages| && WithManaged(stages, true) == stages[..k] + [BrowserbaseManagedSession] + stages[k..]
    ensures k < |stages| ==> stages[k] == StickyProxyBrowserSession
    ensures k == |stages| ==> StickyProxyBrowserSession !in stages
  {
    k := FirstIndex(stages, StickyProxyBrowserSession);
  }

  lemma NextToInserted<T>(s: seq<T>, k: nat, x: T, y: T)
    requires k <= |s| && (k < |s| ==> s[k] == y) && (k == |s| ==> y !in s) && x != y
    ensures var out := s[..k] + [x] + s[k..];
            if k + 1 < |out| then out[k + 1] == y else y !in out
  {
  }

  lemma InsertedOnce<T>(s: seq<T>, k: nat, x: T, y: T)
    requires Distinct(s) && k <= |s| && x !in s
    ensures var out := s[..k] + [x] + s[k..];
            Distinct(out) && FirstIndex(out, x) == k && (y in out <==> y in s || y == x)
  {
    hide FirstIndex;
    var out := s[..k] + [x] + s[k..];
    assert forall i :: 0 <= i < |out| ==> out[i] == if i < k then s[i] else if i == k then x else s[i - 1];
    FirstIndexIs(out, x, k);
    assert s[..k] + s[k..] == s;
  }

  lemma {:induction false} WithoutInserted<T>(a: seq<T>, b: seq<T>, x: T)
    ensures Without(a + [x] + b, x) == Without(a + b, x)
  {
    if b == [] {
      assert a + [x] + b == a + [x] && (a + [x])[..|a|] == a && a + b == a;
    } else {
      var c := b[..|b| - 1];
      assert (a + [x] + b)[..|a + [x] + b| - 1] == a + [x] + c && (a + b)[..|a + b| - 1] == a + c;
      WithoutInserted(a, c, x);
    }
  }

  /** The stages a request's run goes through. */
  function RunLadder(browserbase: bool, mode: Mode, start: Option<Strategy>, enabled: bool): seq<Strategy> {
    if browserbase then WithManaged(StrategyLadder(mode, start), enabled) else StrategyLadder(mode, start)
  }

  /** No strategy is tried twice, and some stage does real work. */
  lemma LadderIsDistinct(browserbase: bool, mode: Mode, start: Option<Strategy>, enabled: bool)
    ensures var ladder := RunLadder(browserbase, mode, start, enabled);
            Distinct(ladder) && TlsProfiledHttp in ladder
  {
    var all := Stages(mode, start);
    assert all[1] == TlsProfiledHttp || all[2] == TlsProfiledHttp || all[3] == TlsProfiledHttp;
    hide Stages, Deduped;
    DedupedIsDistinct(all);
    hide Distinct, FirstIndex;
    var out := ManagedComesBeforeSticky(Deduped(all), enabled);
    ManagedKeepsMembers(Deduped(all), enabled, TlsProfiledHttp);
  }

  lemma ManagedKeepsMembers(stages: seq<Strategy>, enabled: bool, x: Strategy)
    requires x in stages
    ensures x in WithManaged(stages, enabled)
  {
    var k := FirstIndex(stages, StickyProxyBrowserSession);
    assert stages == stages[..k] + stages[k..];
  }

  /** The stage `run` blames for a timeout of the whole run: it looks at the ladder before insertion. */
  function TimeoutStrategy(mode: Mode, start: Option<Strategy>): Strategy {
    FirstWorker(StrategyLadder(mode, start))
  }

  /** `.find(|s| *s != InvestigateEntry).unwrap_or(DirectHttp)`. */
  function FirstWorker(ladder: seq<Strategy>): Strategy {
    if ladder == [] then DirectHttp
    else if ladder[0] != InvestigateEntry then ladder[0]
    else FirstWorker(ladder[1..])
  }

  /** The stage blamed for a timeout of the whole run. */
  lemma TimeoutStrategyIs(mode: Mode, start: Option<Strategy>)
    ensures TimeoutStrategy(mode, start)
         == match mode
            case Fast | Resilient => DirectHttp
            case Hostile => BrowserLightStealth
            case Investigate =>
              if start.None? then BrowserLightStealth
              else if start.value == InvestigateEntry then StickyProxyBrowserSession else start.value
  {
    LadderShape(mode, start);
    FirstWorkerOf(StrategyLadder(mode, start));
  }

  /**
   The blamed stage is the first one the run executes, except when the managed session was
   inserted ahead of it: in an investigation whose start is the sticky session or the marker itself.
   */
  lemma TimeoutBlamesFirstStageIff(browserbase: bool, mode: Mode, start: Option<Strategy>, enabled: bool)
    ensures TimeoutStrategy(mode, start) == FirstWorker(RunLadder(browserbase, mode, start, enabled))
       <==> !(browserbase && enabled && mode == Investigate
              && (start == Some(StickyProxyBrowserSession) || start == Some(InvestigateEntry)))
  {
    var base, ladder := StrategyLadder(mode, start), RunLadder(browserbase, mode, start, enabled);
    LadderShape(mode, start);
    FirstWorkerOf(base);
    FirstWorkerOf(ladder);
    var k := FirstIndex(base, StickyProxyBrowserSession);
    ManagedOnlyByRequest(mode, start);
    hide FirstWorker, FirstIndex, StrategyLadder;
    if browserbase && enabled && BrowserbaseManagedSession !in base {
      assert k > 0 ==> ladder[0] == base[0];
      assert k > 1 ==> ladder[1] == base[1];
      assert k <= 1 ==> ladder[k] == BrowserbaseManagedSession;
    }
  }

  lemma ManagedOnlyByRequest(mode: Mode, start: Option<Strategy>)
    ensures BrowserbaseManagedSession in StrategyLadder(mode, start) ==> start == Some(BrowserbaseManagedSession)
  {
    hide Deduped;
    DedupedIsDistinct(Stages(mode, start));
  }

  lemma FirstWorkerOf(ladder: seq<Strategy>)
    requires |ladder| >= 2 && (ladder[0] != InvestigateEntry || ladder[1] != InvestigateEntry)
    ensures FirstWorker(ladder) == if ladder[0] != InvestigateEntry then ladder[0] else ladder[1]
  {
    assert ladder[1..][0] == ladder[1];
  }

  /** The first two stages of a ladder. */
  lemma LadderShape(mode: Mode, start: Option<Strategy>)
    ensures var base := StrategyLadder(mode, start);
            && |base| >= 3
            && match mode
               case Fast | Resilient => base[0] == DirectHttp && base[1] == TlsProfiledHttp
               case Hostile => base[0] == BrowserLightStealth && base[1] == StickyProxyBrowserSession
               case Investigate =>
                 && base[0] == InvestigateEntry
                 && base[1] == (if start.None? then BrowserLightStealth
                                else if start.value == InvestigateEntry then StickyProxyBrowserSession
                                else start.value)
  {
    LaddersAre(start);
    hide StrategyLadder;
  }

  lemma NoneTwice(start: Option<Strategy>)
    ensures Distinct(Stages(Fast, start)) && Distinct(Stages(Resilient, start)) && Distinct(Stages(Hostile, start))
  {
  }

  /**
   The ladders: from the cheapest stage to the dearest, with the sticky session added for resilience;
   browsers first against hostile targets, with the same stages; and an investigation that tries its
   start stage first, no stage twice.
   */
  lemma LaddersAre(start: Option<Strategy>)
    ensures StrategyLadder(Fast, start) == [DirectHttp, TlsProfiledHttp, BrowserLightStealth]
    ensures StrategyLadder(Resilient, start) == StrategyLadder(Fast, start) + [StickyProxyBrowserSession]
    ensures StrategyLadder(Hostile, start)
         == [BrowserLightStealth, StickyProxyBrowserSession, TlsProfiledHttp, DirectHttp]
    ensures var first := if start.Some? then start.value else BrowserLightStealth;
            StrategyLadder(Investigate, start)
            == if first == InvestigateEntry || first == StickyProxyBrowserSession then
                 [InvestigateEntry, StickyProxyBrowserSession, TlsProfiledHttp]
               else if first == TlsProfiledHttp then [InvestigateEntry, TlsProfiledHttp, StickyProxyBrowserSession]
               else [InvestigateEntry, first, StickyProxyBrowserSession, TlsProfiledHttp]
  {
    hide Deduped, Distinct;
    NoneTwice(start);
    DedupedIsDistinct(Stages(Fast, start));
    DedupedIsDistinct(Stages(Resilient, start));
    DedupedIsDistinct(Stages(Hostile, start));
    LadderOfInvestigation(if start.Some? then start.value else BrowserLightStealth);
  }

  lemma LadderOfInvestigation(first: Strategy)
    ensures var d := Deduped([InvestigateEntry, first, StickyProxyBrowserSession, TlsProfiledHttp]);
            && |d| >= 3 && d[0] == InvestigateEntry
            && d[1] == (if first == InvestigateEntry then StickyProxyBrowserSession else first)
            && d == if first == InvestigateEntry || first == StickyProxyBrowserSession then
                      [InvestigateEntry, StickyProxyBrowserSession, TlsProfiledHttp]
                    else if first == TlsProfiledHttp then [InvestigateEntry, TlsProfiledHttp, StickyProxyBrowserSession]
                    else [InvestigateEntry, first, StickyProxyBrowserSession, TlsProfiledHttp]
  {
    var s3 := [InvestigateEntry, first, StickyProxyBrowserSession];
    var s4 := s3 + [TlsProfiledHttp];
    assert s4 == [InvestigateEntry, first, StickyProxyBrowserSession, TlsProfiledHttp];
    assert s3[..2] == [InvestigateEntry, first] && s3[..2][..1] == [InvestigateEntry] && s4[..3] == s3;
    assert Deduped([InvestigateEntry]) == [InvestigateEntry];
    assert Deduped(s3[..2]) == if first == InvestigateEntry then [InvestigateEntry] else [InvestigateEntry, first];
  }
}
