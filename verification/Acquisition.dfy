/**
 The acquisition runner: pre-flight short-circuits, then the stages of the ladder one after the
 other until one succeeds, time runs out, or none is left. What a stage meets (the network, the
 browser, the remote provider) and what the clock shows are inputs.
 */
module Acquisition {
  import opened Ladder
  import opened Options
  import opened Truncation
  import opened Unicode

  datatype FailureKind =
    | Setup
    | Timeout
    | Blocked
    | Transport
    | Extraction
    | ReplayDefenseTriggered
    | InterstitialRouted
    | RateLimited

  /** What `classify_browser_error` and the HTTP stages can report. */
  type StageErrorKind = k: FailureKind | k != ReplayDefenseTriggered && k != InterstitialRouted witness Setup

  datatype Failure = Failure(strategy: Strategy, kind: FailureKind)

  datatype StageSuccess = StageSuccess(url: Option<string>, status: Option<nat>, excerpt: Option<string>,
                                       extracted: Option<string>)

  datatype StageOutcome = Marker | Success(success: StageSuccess) | Failed(failure: Failure)

  /** What the outside world gives a stage that got as far as asking. */
  datatype Answer =
    | Page(url: Option<string>, status: Option<nat>, html: string, value: string)
    | Error(kind: StageErrorKind)

  /** `elapsed` is what the clock shows when the loop reaches the stage. */
  datatype Moment = Moment(elapsed: nat, answer: Answer)

  /**
   What the runner finds in place: the cargo features it was built with, the provider's key and
   project in the environment, and whether the plain and the profiled HTTP client can be set up.
   */
  datatype Platform = Platform(tlsConfig: bool, browserbase: bool, credentials: bool, plainClient: bool,
                               profiledClient: bool)

  datatype Request = Request(mode: Mode, start: Option<Strategy>, selector: bool, extraction: bool,
                             totalTimeout: nat, excerptBytes: nat, browserbaseEnabled: bool)

  /** The verdicts of the classifiers whose context the request carries; `Some(true)` is a rejection. */
  datatype Checks = Checks(freshness: Option<bool>, replay: Option<bool>, interstitial: Option<bool>,
                           transport: bool)

  datatype Reports = Reports(freshness: bool, replay: bool, interstitial: bool, transport: bool)

  datatype World = World(platform: Platform, request: Request, moments: nat -> Moment)

  datatype Result = Result(success: bool, used: Option<Strategy>, attempted: seq<Strategy>, failures: seq<Failure>,
                           page: StageSuccess, timedOut: bool, reports: Reports)

  const NO_PAGE := StageSuccess(None, None, None, None)
  const NO_REPORTS := Reports(false, false, false, false)
  const EMPTY := Result(false, None, [], [], NO_PAGE, false, NO_REPORTS)

  /** `is_block_status`. */
  predicate IsBlockStatus(status: Option<nat>) {
    status.Some? && status.value in {401, 403, 407, 429, 503}
  }

  predicate IsHttp(strategy: Strategy) {
    strategy == DirectHttp || strategy == TlsProfiledHttp
  }

  /** What a browser or provider stage, or an HTTP stage past its guards, makes of the answer. */
  function Judge(strategy: Strategy, request: Request, answer: Answer): StageOutcome {
    match answer
    case Error(kind) => Failed(Failure(strategy, kind))
    case Page(url, status, html, value) =>
      if IsBlockStatus(status) then Failed(Failure(strategy, Blocked))
      else Success(StageSuccess(url, status, Some(Truncated(html, request.excerptBytes)),
                                if request.extraction && !IsHttp(strategy) then Some(value) else None))
  }

  /** `execute_stage` with the stage functions it calls. */
  function ExecuteStage(platform: Platform, request: Request, strategy: Strategy, answer: Answer): StageOutcome {
    match strategy
    case InvestigateEntry => Marker
    case DirectHttp | TlsProfiledHttp =>
      if request.selector || request.extraction then Failed(Failure(strategy, Extraction))
      else if !platform.tlsConfig then Failed(Failure(strategy, Setup))
      else if !(if strategy == TlsProfiledHttp then platform.profiledClient else platform.plainClient) then
        Failed(Failure(strategy, Setup))
      else Judge(strategy, request, answer)
    case BrowserbaseManagedSession =>
      if !request.browserbaseEnabled || !platform.credentials then Failed(Failure(strategy, Setup))
      else Judge(strategy, request, answer)
    case BrowserLightStealth | StickyProxyBrowserSession => Judge(strategy, request, answer)
  }

  /** The stage cannot ask: it is the marker, or one of its guards stops it. */
  predicate Guarded(platform: Platform, request: Request, strategy: Strategy) {
    match strategy
    case InvestigateEntry => true
    case DirectHttp => request.selector || request.extraction || !platform.tlsConfig || !platform.plainClient
    case TlsProfiledHttp => request.selector || request.extraction || !platform.tlsConfig || !platform.profiledClient
    case BrowserbaseManagedSession => !request.browserbaseEnabled || !platform.credentials
    case _ => false
  }

  /**
   What a stage makes of an answer: the marker does nothing, a guarded stage fails by itself, and any
   other succeeds iff it gets a page whose status is none of the five that mean a block.
   */
  lemma StageOutcomes(platform: Platform, request: Request, strategy: Strategy, answer: Answer)
    ensures var o := ExecuteStage(platform, request, strategy, answer);
            && (o.Marker? <==> strategy == InvestigateEntry)
            && (o.Success? <==>
                  && !Guarded(platform, request, strategy) && answer.Page?
                  && answer.status !in {Some(401), Some(403), Some(407), Some(429), Some(503)})
            && (o.Failed? ==> o.failure == Failure(strategy,
                  if Guarded(platform, request, strategy) then
                    if IsHttp(strategy) && (request.selector || request.extraction) then Extraction else Setup
                  else if answer.Error? then answer.kind else Blocked))
  {
  }

  /** The page is the one in the answer: its address, its status, as much of it as fits, and the value asked for. */
  ghost predicate Delivers(request: Request, answer: Answer, page: StageSuccess) {
    && answer.Page? && page.url == answer.url && page.status == answer.status
    && page.excerpt.Some? && IsExcerpt(page.excerpt.value, answer.html, request.excerptBytes)
    && page.extracted == if request.extraction then Some(answer.value) else None
  }

  /**
   A stage succeeds only with the page of its answer, an unblocked status, an excerpt within the byte
   budget, and what the request asked for: a selector or an extraction is met by a browser or not at all.
   */
  lemma SuccessMeetsRequest(platform: Platform, request: Request, strategy: Strategy, answer: Answer)
    requires ExecuteStage(platform, request, strategy, answer).Success?
    ensures var page := ExecuteStage(platform, request, strategy, answer).success;
            && strategy != InvestigateEntry
            && Delivers(request, answer, page)
            && !IsBlockStatus(page.status)
            && page.excerpt.Some? && |Utf8Bytes(page.excerpt.value)| <= request.excerptBytes
            && page.extracted.Some? == request.extraction
            && (request.selector || request.extraction ==> !IsHttp(strategy))
            && (IsHttp(strategy) ==> platform.tlsConfig)
            && (strategy == BrowserbaseManagedSession ==> request.browserbaseEnabled && platform.credentials)
  {
    TruncatedIsLongest(answer.html, request.excerptBytes);
  }

  /** A stage settles its outcome whatever the outside world would answer iff a guard stops it. */
  lemma DecidesWithoutAskingIff(platform: Platform, request: Request, strategy: Strategy)
    ensures (forall a: Answer, b: Answer ::
               ExecuteStage(platform, request, strategy, a) == ExecuteStage(platform, request, strategy, b))
       <==> Guarded(platform, request, strategy)
  {
    var late, early := Error(Timeout), Error(Setup);
    assert ExecuteStage(platform, request, strategy, late) == ExecuteStage(platform, request, strategy, early)
      <==> Guarded(platform, request, strategy);
  }

  function LadderOf(w: World): seq<Strategy> {
    RunLadder(w.platform.browserbase, w.request.mode, w.request.start, w.request.browserbaseEnabled)
  }

  /** The managed session is a stage iff built in and enabled, or investigated first; no other stage depends on it. */
  lemma ManagedIsOptional(w: World)
    ensures var base := StrategyLadder(w.request.mode, w.request.start);
            && (BrowserbaseManagedSession in LadderOf(w) <==>
                  || (w.platform.browserbase && w.request.browserbaseEnabled)
                  || (w.request.mode == Investigate && w.request.start == Some(BrowserbaseManagedSession)))
            && Without(LadderOf(w), BrowserbaseManagedSession) == Without(base, BrowserbaseManagedSession)
  {
    hide Distinct, StrategyLadder;
    LaddersAre(w.request.start);
    DedupedIsDistinct(Stages(w.request.mode, w.request.start));
    IsDeduped(w.request.mode, w.request.start);
    var out := ManagedComesBeforeSticky(StrategyLadder(w.request.mode, w.request.start), w.request.browserbaseEnabled);
    hide Without, WithManaged;
  }

  lemma IsDeduped(mode: Mode, start: Option<Strategy>)
    ensures StrategyLadder(mode, start) == Deduped(Stages(mode, start))
  {
  }

  predicate InTime(w: World, i: nat) {
    w.moments(i).elapsed < w.request.totalTimeout
  }

  function OutcomeAt(w: World, ladder: seq<Strategy>, i: nat): StageOutcome
    requires i < |ladder|
  {
    ExecuteStage(w.platform, w.request, ladder[i], w.moments(i).answer)
  }

  predicate SucceedsAt(w: World, ladder: seq<Strategy>, i: nat)
    requires i < |ladder|
  {
    OutcomeAt(w, ladder, i).Success?
  }

  /** The loop executes exactly the first `n` stages. */
  predicate StopsAt(w: World, ladder: seq<Strategy>, n: nat) {
    && n <= |ladder|
    && (forall i: nat :: i < n ==> InTime(w, i))
    && (forall i: nat :: i + 1 < n ==> !SucceedsAt(w, ladder, i))
    && (n == |ladder| || (n > 0 && SucceedsAt(w, ladder, n - 1)) || !InTime(w, n))
  }

  lemma StopsOnce(w: World, ladder: seq<Strategy>, n: nat, m: nat)
    requires StopsAt(w, ladder, n) && StopsAt(w, ladder, m)
    ensures n == m
  {
  }

  /** The failures the first `n` stages report. */
  function FailuresOf(w: World, ladder: seq<Strategy>, n: nat): (failures: seq<Failure>)
    requires n <= |ladder|
  {
    if n == 0 then []
    else
      var o := OutcomeAt(w, ladder, n - 1);
      FailuresOf(w, ladder, n - 1) + (if o.Failed? then [o.failure] else [])
  }

  /** What the caller gets when the loop stops after `n` stages. */
  function After(w: World, ladder: seq<Strategy>, reports: Reports, n: nat): Result
    requires StopsAt(w, ladder, n)
  {
    var success := n > 0 && SucceedsAt(w, ladder, n - 1);
    var late := !success && n < |ladder|;
    Result(success, if success then Some(ladder[n - 1]) else None, ladder[..n],
           FailuresOf(w, ladder, n) + (if late then [Failure(ladder[n], Timeout)] else []),
           if success then OutcomeAt(w, ladder, n - 1).success else NO_PAGE, late, reports)
  }

  /** The first check that rejects decides; checks behind it are not made. */
  function ShortCircuit(checks: Checks): Option<FailureKind> {
    if checks.freshness == Some(true) then Some(Setup)
    else if checks.replay == Some(true) then Some(ReplayDefenseTriggered)
    else if checks.interstitial == Some(true) then Some(InterstitialRouted)
    else None
  }

  function ReportsOf(checks: Checks): Reports {
    var pastFreshness := checks.freshness != Some(true);
    var pastReplay := pastFreshness && checks.replay != Some(true);
    Reports(checks.freshness.Some?, pastFreshness && checks.replay.Some?, pastReplay && checks.interstitial.Some?,
            pastReplay && checks.interstitial != Some(true) && checks.transport)
  }

  predicate Inner(w: World, checks: Checks, r: Result) {
    match ShortCircuit(checks)
    case Some(kind) => r == EMPTY.(failures := [Failure(InvestigateEntry, kind)], reports := ReportsOf(checks))
    case None =>
      && StopsAt(w, LadderOf(w), |r.attempted|)
      && r == After(w, LadderOf(w), ReportsOf(checks), |r.attempted|)
  }

  /** `run_inner`; `released` says that the sticky sessions of the host were given up. */
  method RunInner(w: World, checks: Checks) returns (result: Result, released: bool)
    ensures Inner(w, checks, result)
    ensures released <==> ShortCircuit(checks) == Some(ReplayDefenseTriggered)
  {
    released := false;
    result := EMPTY;
    if checks.freshness.Some? {
      result := result.(reports := result.reports.(freshness := true));
      if checks.freshness.value {
        result := result.(failures := result.failures + [Failure(InvestigateEntry, Setup)]);
        return;
      }
    }
    if checks.replay.Some? {
      result := result.(reports := result.reports.(replay := true));
      if checks.replay.value {
        released := true;
        result := result.(failures := result.failures + [Failure(InvestigateEntry, ReplayDefenseTriggered)]);
        return;
      }
    }
    if checks.interstitial.Some? {
      result := result.(reports := result.reports.(interstitial := true));
      if checks.interstitial.value {
        result := result.(failures := result.failures + [Failure(InvestigateEntry, InterstitialRouted)]);
        return;
      }
    }
    if checks.transport {
      result := result.(reports := result.reports.(transport := true));
    }
    result := RunStages(w, result);
  }

  method BuildLadder(w: World) returns (ladder: seq<Strategy>)
    ensures ladder == LadderOf(w)
  {
    ladder := Dedupe(Stages(w.request.mode, w.request.start));
    if w.platform.browserbase {
      ladder := MaybeInsertBrowserbase(ladder, w.request.browserbaseEnabled);
    }
  }

  /** The stage loop of `run_inner`. */
  method RunStages(w: World, start: Result) returns (result: Result)
    requires start == EMPTY.(reports := start.reports)
    ensures StopsAt(w, LadderOf(w), |result.attempted|)
    ensures result == After(w, LadderOf(w), start.reports, |result.attempted|)
  {
    hide LadderOf, ExecuteStage;
    var ladder := BuildLadder(w);
    result := start;
    var i := 0;
    while i < |ladder|
      invariant i <= |ladder|
      invariant forall j: nat :: j < i ==> InTime(w, j) && !SucceedsAt(w, ladder, j)
      invariant result == start.(attempted := ladder[..i], failures := FailuresOf(w, ladder, i))
    {
      var strategy := ladder[i];
      if w.moments(i).elapsed >= w.request.totalTimeout {
        result := result.(timedOut := true, failures := result.failures + [Failure(strategy, Timeout)]);
        assert !InTime(w, i);
        return;
      }
      result := result.(attempted := result.attempted + [strategy]);
      assert result.attempted == ladder[..i + 1];
      var outcome := ExecuteStage(w.platform, w.request, strategy, w.moments(i).answer);
      assert outcome == OutcomeAt(w, ladder, i);
      match outcome {
        case Marker =>
        case Success(page) =>
          result := result.(success := true, used := Some(strategy), page := page);
          assert SucceedsAt(w, ladder, i);
          return;
        case Failed(failure) =>
          result := result.(failures := result.failures + [failure]);
      }
      i := i + 1;
    }
    assert ladder[..i] == ladder;
  }

  /** What a run that the outer timeout cuts off gives back. */
  function CutOff(w: World): Result {
    EMPTY.(timedOut := true, failures := [Failure(TimeoutStrategy(w.request.mode, w.request.start), Timeout)])
  }

  /** `run`; `expired` says that the outer timeout fires before the inner future is ready. */
  method Run(w: World, checks: Checks, expired: bool) returns (result: Result)
    ensures if expired then result == CutOff(w) else Inner(w, checks, result)
    ensures expired ==>
              && result.timedOut && !result.success && result.used == None && result.attempted == []
              && result.failures == [Failure(TimeoutStrategy(w.request.mode, w.request.start), Timeout)]
              && result.page == NO_PAGE && result.reports == NO_REPORTS
  {
    var timeoutStrategy := TimeoutStrategy(w.request.mode, w.request.start);
    var inner, _ := RunInner(w, checks);
    if expired {
      result := EMPTY.(timedOut := true);
      result := result.(failures := result.failures + [Failure(timeoutStrategy, Timeout)]);
    } else {
      result := inner;
    }
    if !result.success {
      if |result.failures| == 0 {
        // Never taken: the line below would break `Inner`.
        NeverSilent(w, checks, result);
        result := result.(failures := result.failures + [Failure(timeoutStrategy, Transport)]);
      }
    }
  }

  function Blamed(failures: seq<Failure>): (strategies: seq<Strategy>)
    ensures |strategies| == |failures| && forall i :: 0 <= i < |failures| ==> strategies[i] == failures[i].strategy
  {
    seq(|failures|, i requires 0 <= i < |failures| => failures[i].strategy)
  }

  /** Only the marker stage does nothing, and a stage only fails in its own name. */
  lemma StageOwnsFailure(w: World, ladder: seq<Strategy>, i: nat)
    requires i < |ladder|
    ensures OutcomeAt(w, ladder, i).Marker? <==> ladder[i] == InvestigateEntry
    ensures OutcomeAt(w, ladder, i).Failed? ==> OutcomeAt(w, ladder, i).failure.strategy == ladder[i]
  {
  }

  lemma BlamedAppend(a: seq<Failure>, f: Failure)
    ensures Blamed(a + [f]) == Blamed(a) + [f.strategy]
  {
  }

  lemma {:induction false} StagesBlamed(w: World, ladder: seq<Strategy>, n: nat)
    requires n <= |ladder| && forall i: nat :: i < n ==> !SucceedsAt(w, ladder, i)
    ensures Blamed(FailuresOf(w, ladder, n)) == Without(ladder[..n], InvestigateEntry)
  {
    if n > 0 {
      StagesBlamed(w, ladder, n - 1);
      assert ladder[..n][..n - 1] == ladder[..n - 1];
      assert !SucceedsAt(w, ladder, n - 1);
      StageOwnsFailure(w, ladder, n - 1);
      var o := OutcomeAt(w, ladder, n - 1);
      if o.Failed? {
        BlamedAppend(FailuresOf(w, ladder, n - 1), o.failure);
      }
      hide OutcomeAt;
    }
  }

  /** An unsuccessful run always names a failure, so the runner's last-resort failure is never used. */
  lemma NeverSilent(w: World, checks: Checks, r: Result)
    requires Inner(w, checks, r) && !r.success
    ensures r.failures != []
  {
    if ShortCircuit(checks).None? {
      LadderIsDistinct(w.platform.browserbase, w.request.mode, w.request.start, w.request.browserbaseEnabled);
      assert TlsProfiledHttp in LadderOf(w);
      hide LadderOf;
      NoneSilent(w, LadderOf(w), ReportsOf(checks), |r.attempted|);
    }
  }

  lemma NoneSilent(w: World, ladder: seq<Strategy>, reports: Reports, n: nat)
    requires TlsProfiledHttp in ladder && StopsAt(w, ladder, n) && !After(w, ladder, reports, n).success
    ensures After(w, ladder, reports, n).failures != []
  {
    hide ExecuteStage, OutcomeAt;
    if n == |ladder| {
      StagesBlamed(w, ladder, n);
      assert ladder[..n] == ladder;
      WithoutKeeps(ladder, InvestigateEntry, TlsProfiledHttp);
    }
  }

  lemma {:induction false} WithoutKeeps(s: seq<Strategy>, x: Strategy, y: Strategy)
    requires y in s && y != x
    ensures y in Without(s, x)
  {
    if s[|s| - 1] != y {
      assert s == s[..|s| - 1] + [s[|s| - 1]];
      WithoutKeeps(s[..|s| - 1], x, y);
    }
  }

  /**
   What a result tells about a run that was not short-circuited: a prefix of the distinct ladder was
   attempted; the failures name, in order, exactly the attempted stages other than the marker and
   the winner, and after them the stage that time ran out for, if it did.
   */
  lemma FailuresTellTheRun(w: World, checks: Checks, r: Result)
    requires Inner(w, checks, r) && ShortCircuit(checks).None?
    ensures r.attempted <= LadderOf(w) && Distinct(r.attempted)
    ensures r.timedOut ==> |r.attempted| < |LadderOf(w)| && !r.success
    ensures var losers := if r.success then Without(r.attempted, r.used.value) else r.attempted;
            Blamed(r.failures) == Without(losers, InvestigateEntry)
                                  + (if r.timedOut then [LadderOf(w)[|r.attempted|]] else [])
    ensures r.used.Some? <==> r.success
  {
    var ladder, n := LadderOf(w), |r.attempted|;
    LadderIsDistinct(w.platform.browserbase, w.request.mode, w.request.start, w.request.browserbaseEnabled);
    assert Distinct(ladder) && r == After(w, ladder, ReportsOf(checks), n);
    hide LadderOf, ExecuteStage, RunLadder, Without, OutcomeAt;
    if r.success {
      WinnerAndLosers(w, ladder, ReportsOf(checks), n);
    } else {
      OnlyLosers(w, ladder, ReportsOf(checks), n);
    }
  }

  lemma WinnerAndLosers(w: World, ladder: seq<Strategy>, reports: Reports, n: nat)
    requires Distinct(ladder) && StopsAt(w, ladder, n) && After(w, ladder, reports, n).success
    ensures var r := After(w, ladder, reports, n);
            Blamed(r.failures) == Without(Without(r.attempted, r.used.value), InvestigateEntry)
  {
    hide ExecuteStage, Without;
    var losers := ladder[..n - 1];
    StagesBlamed(w, ladder, n - 1);
    DistinctPrefix(ladder, n - 1);
    WithoutLast(losers, ladder[n - 1]);
    assert ladder[..n] == losers + [ladder[n - 1]];
  }

  lemma OnlyLosers(w: World, ladder: seq<Strategy>, reports: Reports, n: nat)
    requires StopsAt(w, ladder, n) && !After(w, ladder, reports, n).success
    ensures var r := After(w, ladder, reports, n);
            Blamed(r.failures) == Without(r.attempted, InvestigateEntry) + (if r.timedOut then [ladder[n]] else [])
  {
    hide ExecuteStage, Without, OutcomeAt;
    assert n > 0 ==> !SucceedsAt(w, ladder, n - 1);
    StagesBlamed(w, ladder, n);
    if After(w, ladder, reports, n).timedOut {
      BlamedAppend(FailuresOf(w, ladder, n), Failure(ladder[n], Timeout));
    }
  }

  /** A run succeeds iff some stage does before time runs out; it stops at the first, which is reported. */
  lemma SucceedsIff(w: World, checks: Checks, r: Result)
    requires Inner(w, checks, r)
    ensures r.success <==>
            && ShortCircuit(checks).None?
            && exists i: nat ::
                 && i < |LadderOf(w)| && SucceedsAt(w, LadderOf(w), i)
                 && forall j: nat :: j <= i ==> InTime(w, j)
    ensures r.success ==>
              && |r.attempted| > 0
              && r.used == Some(r.attempted[|r.attempted| - 1])
              && SucceedsAt(w, LadderOf(w), |r.attempted| - 1)
              && r.page == OutcomeAt(w, LadderOf(w), |r.attempted| - 1).success
              && (forall i: nat :: i + 1 < |r.attempted| ==> !SucceedsAt(w, LadderOf(w), i))
  {
    hide LadderOf, ExecuteStage;
    if ShortCircuit(checks).None? {
      var ladder, n := LadderOf(w), |r.attempted|;
      forall i: nat | i < |ladder| && SucceedsAt(w, ladder, i) && (forall j: nat :: j <= i ==> InTime(w, j))
        ensures r.success
      {
        if n <= i {
          assert InTime(w, n);
        } else {
          assert i + 1 >= n;
        }
      }
    }
  }

  /**
   The page of a successful run is the one its last stage was answered with, unblocked, within budget,
   and holds what was asked for.
   */
  lemma SuccessfulRunMeetsRequest(w: World, checks: Checks, r: Result)
    requires Inner(w, checks, r) && r.success
    ensures |r.attempted| > 0 && Delivers(w.request, w.moments(|r.attempted| - 1).answer, r.page)
    ensures && r.used.Some? && r.used.value != InvestigateEntry
            && !IsBlockStatus(r.page.status)
            && r.page.excerpt.Some? && |Utf8Bytes(r.page.excerpt.value)| <= w.request.excerptBytes
            && r.page.extracted.Some? == w.request.extraction
            && (w.request.selector || w.request.extraction ==> !IsHttp(r.used.value))
            && !r.timedOut
  {
    var ladder, n := LadderOf(w), |r.attempted|;
    hide LadderOf, ExecuteStage;
    SuccessMeetsRequest(w.platform, w.request, ladder[n - 1], w.moments(n - 1).answer);
  }

  /** The first check that rejects decides the run, and the later ones are not even reported. */
  lemma RejectionsInOrder(w: World, checks: Checks, r: Result)
    requires Inner(w, checks, r)
    ensures var f, p, i := checks.freshness, checks.replay, checks.interstitial;
            var reports, kind :=
              if f == Some(true) then Reports(true, false, false, false) else
              if p == Some(true) then Reports(f.Some?, true, false, false) else
              if i == Some(true) then Reports(f.Some?, p.Some?, true, false)
              else Reports(f.Some?, p.Some?, i.Some?, checks.transport),
              if f == Some(true) then Setup else if p == Some(true) then ReplayDefenseTriggered else InterstitialRouted;
            && r.reports == reports
            && (f == Some(true) || p == Some(true) || i == Some(true) <==> ShortCircuit(checks).Some?)
            && (ShortCircuit(checks).Some? ==>
                  && r.failures == [Failure(InvestigateEntry, kind)] && r.attempted == [] && r.page == NO_PAGE
                  && !r.success && !r.timedOut && r.used == None)
  {
    hide LadderOf, ExecuteStage;
  }

  /** A run times out iff the clock has used up the budget before a stage, and no stage before that one succeeded. */
  lemma TimesOutIff(w: World, checks: Checks, r: Result)
    requires Inner(w, checks, r)
    ensures forall i: nat :: i < |r.attempted| ==> w.moments(i).elapsed < w.request.totalTimeout
    ensures r.timedOut <==>
              && ShortCircuit(checks).None?
              && exists n: nat ::
                   && n < |LadderOf(w)| && w.moments(n).elapsed >= w.request.totalTimeout
                   && forall i: nat :: i < n ==> InTime(w, i) && !SucceedsAt(w, LadderOf(w), i)
    ensures r.timedOut ==> w.moments(|r.attempted|).elapsed >= w.request.totalTimeout
  {
    hide LadderOf, ExecuteStage;
    if ShortCircuit(checks).None? {
      var ladder, k := LadderOf(w), |r.attempted|;
      forall i: nat | i < k ensures w.moments(i).elapsed < w.request.totalTimeout {
        assert InTime(w, i);
      }
      if r.timedOut {
        assert !InTime(w, k);
        assert forall i: nat :: i < k ==> !SucceedsAt(w, ladder, i);
      }
      forall n: nat | n < |ladder| && w.moments(n).elapsed >= w.request.totalTimeout
                      && forall i: nat :: i < n ==> InTime(w, i) && !SucceedsAt(w, ladder, i)
        ensures r.timedOut
      {
        assert !InTime(w, n);
        assert k > 0 ==> InTime(w, k - 1);
      }
    }
  }

  lemma {:induction false} FailuresAre(w: World, ladder: seq<Strategy>, n: nat, f: Failure)
    requires n <= |ladder|
    ensures f in FailuresOf(w, ladder, n) <==> exists i: nat :: i < n && OutcomeAt(w, ladder, i) == Failed(f)
  {
    if n > 0 {
      FailuresAre(w, ladder, n - 1, f);
      hide OutcomeAt;
    }
  }

  /** The failures of a run are those of the stages it attempted, and the timeout of the stage it did not come to. */
  lemma FailuresAreOutcomes(w: World, checks: Checks, r: Result, f: Failure)
    requires Inner(w, checks, r) && ShortCircuit(checks).None?
    ensures |r.attempted| <= |LadderOf(w)| && (r.timedOut ==> |r.attempted| < |LadderOf(w)|)
    ensures f in r.failures <==>
              || (exists i: nat :: i < |r.attempted| && OutcomeAt(w, LadderOf(w), i) == Failed(f))
              || (r.timedOut && f == Failure(LadderOf(w)[|r.attempted|], Timeout))
  {
    hide LadderOf, OutcomeAt;
    FailuresAre(w, LadderOf(w), |r.attempted|, f);
  }

  /** The two routing failures come from a short-circuit and from nothing else. */
  lemma RoutingFailuresAreShortCircuits(w: World, checks: Checks, r: Result, kind: FailureKind)
    requires Inner(w, checks, r) && (kind == ReplayDefenseTriggered || kind == InterstitialRouted)
    ensures (exists f :: f in r.failures && f.kind == kind) <==> ShortCircuit(checks) == Some(kind)
    ensures ShortCircuit(checks) == Some(kind) ==>
              r.failures == [Failure(InvestigateEntry, kind)] && r.attempted == [] && !r.success
  {
    if ShortCircuit(checks).None? {
      hide LadderOf;
      StageKinds(w, LadderOf(w), |r.attempted|);
    } else if ShortCircuit(checks) == Some(kind) {
      assert Failure(InvestigateEntry, kind) in r.failures;
    }
  }

  lemma {:induction false} StageKinds(w: World, ladder: seq<Strategy>, n: nat)
    requires n <= |ladder|
    ensures forall f :: f in FailuresOf(w, ladder, n) ==>
              f.kind != ReplayDefenseTriggered && f.kind != InterstitialRouted
  {
    if n > 0 {
      StageKinds(w, ladder, n - 1);
      if OutcomeAt(w, ladder, n - 1).Failed? {
        StageKind(w, ladder, n - 1);
      }
      hide OutcomeAt;
    }
  }

  lemma StageKind(w: World, ladder: seq<Strategy>, i: nat)
    requires i < |ladder| && OutcomeAt(w, ladder, i).Failed?
    ensures OutcomeAt(w, ladder, i).failure.kind != ReplayDefenseTriggered
    ensures OutcomeAt(w, ladder, i).failure.kind != InterstitialRouted
  {
  }

  /** The answer is a function of the world: two runs that see the same things end the same. */
  lemma RunIsDetermined(w: World, checks: Checks, r: Result, q: Result)
    requires Inner(w, checks, r) && Inner(w, checks, q)
    ensures r == q
  {
    if ShortCircuit(checks).None? {
      hide LadderOf, ExecuteStage;
      StopsOnce(w, LadderOf(w), |r.attempted|, |q.attempted|);
    }
  }
}
