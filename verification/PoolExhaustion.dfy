/**
 Two runs that every pool has, whatever its sizes.

 The documentation of `acquire` promises a launch whenever `active < max_size`. After an eviction the
 permit of the evicted browser is gone, so in a settled pool the promise holds iff
 `active + evicted < max_size` (`PoolTheorems.LaunchCapacity`). The first run ends where it fails for
 good. In the second one a sweep takes the counter from far above `min_size` to zero.

 Both begin with `max_size + min_size` calls that come in at once and all read the counter at zero.
 The first `max_size` of them take the permits, the others wait. An unhealthy browser gives back its
 permit at once and is counted until its shutdown is over, so with every such release one of those
 that wait launches, until `max_size + min_size` are counted. The `max_size` browsers then in use are
 given back healthy and time out.
 */
module PoolExhaustion {
  import opened Options
  import opened PoolModel
  import opened PoolRuns
  import opened PoolCallers
  import opened PoolSoloSweep
  import opened PoolMeasure
  import opened PoolInvariant
  import opened PoolSteps
  import opened PoolSweep
  import opened PoolTheorems
  import opened PoolTraces
  import opened PoolDrain
  import opened PoolMinimum

  // ---------------------------------------------------------------- the warm-up fails

  /** When every launch of the warm-up fails, or every binding, the pool starts empty. */
  lemma {:induction false} WarmUpFails(c: Config, n: nat)
    requires c.max > 0 && n <= c.min
    ensures Leads(c, Init(c), Init(c).(tasks := [Warm(WarmNext(n))]))
  {
    hide Leads, RunStep;
    var start := Init(c);
    if n == 0 {
      Stay(c, start);
    } else {
      WarmUpFails(c, n - 1);
      var s := start.(tasks := [Warm(WarmNext(n - 1))]);
      BindStep(c, s, n - 1, None);
      if c.proxied {
        Then(c, start, s, Run(0, BindFailed), s.(tasks := [Warm(WarmNext(n))]));
      } else {
        OneFailure(c, s, n - 1);
      }
    }
  }

  lemma OneFailure(c: Config, s: State, n: nat)
    requires Leads(c, Init(c), s) && s == Init(c).(tasks := [Warm(WarmNext(n))])
    requires c.max > 0 && n < c.min && !c.proxied
    ensures Leads(c, Init(c), s.(tasks := [Warm(WarmNext(n + 1))]))
  {
    hide Leads, RunStep;
    var start := Init(c);
    BindStep(c, s, n, None);
    var s1 := s.(tasks := [Warm(WarmPermit(n, None))]);
    Then(c, start, s, Run(0, Quiet), s1);
    PermitStep(c, s1, n, None);
    var s2 := s.(permits := s.permits - 1, tasks := [Launching(Count(Warmer(n), None))]);
    Then(c, start, s1, Run(0, Quiet), s2);
    CountStep(c, s2, n, None);
    var s3 := s2.(active := 1, tasks := [Launching(Launch(Warmer(n), None))]);
    Then(c, start, s2, Run(0, Quiet), s3);
    LaunchErrorStep(c, s3, n, None);
    var s4 := s3.(tasks := [Launching(Uncount(Warmer(n), None))]);
    Then(c, start, s3, Run(0, LaunchError), s4);
    UncountStep(c, s4, n, None);
    var s5 := s4.(active := 0, tasks := [Launching(Unpermit(Warmer(n), None))]);
    Then(c, start, s4, Run(0, Quiet), s5);
    UnpermitStep(c, s5, n, None);
    Then(c, start, s5, Run(0, Quiet), s.(tasks := [Warm(WarmNext(n + 1))]));
  }

  // ---------------------------------------------------------------- the calls come in

  /** `p` callers that saw the counter at zero and wait for a permit. */
  function Parked(p: nat): seq<Task> {
    seq(p, _ => Acq(Wait(None, 0)))
  }

  lemma {:induction false} Park(c: Config, p: nat)
    requires c.max > 0
    ensures Leads(c, Init(c), Init(c).(tasks := [Done] + Parked(p)))
  {
    hide Leads, RunStep;
    var start := Init(c);
    if p == 0 {
      WarmUpFails(c, c.min);
      WarmEndStep(c, start.(tasks := [Warm(WarmNext(c.min))]), c.min);
      Then(c, start, start.(tasks := [Warm(WarmNext(c.min))]), Run(0, Quiet), start.(tasks := [Done]));
      assert [Done] + Parked(0) == [Done];
    } else {
      Park(c, p - 1);
      Parks(c, start, start.(tasks := [Done] + Parked(p - 1)));
      assert [Done] + Parked(p) == [Done] + Parked(p - 1) + [Acq(Wait(None, 0))];
    }
  }

  /** What is left of a task that is done, apart from a shutdown. */
  predicate Over(t: Task) {
    t == Done || (t.Disposer? && !t.disposer.Closed?)
  }

  predicate InUse(t: Task) {
    IsHandle(t) && t.held.ctx == None && t.held.cargo.inst.healthy
  }

  predicate JustIdle(q: seq<Entry>, now: nat) {
    forall k :: 0 <= k < |q| ==> q[k].lastUsed == now
  }

  /**
   The first `w` callers wait, the next `h` have a healthy browser, and all others are through. What is
   idle became so just now, and the ids from `n` on are unused.
   */
  predicate Staged(s: State, n: nat, w: nat, h: nat) {
    && |s.tasks| > w + h && s.tasks[0] == Done && !s.locked
    && (forall i :: 1 <= i <= w ==> s.tasks[i] == Acq(Wait(None, 0)))
    && (forall i :: w < i <= w + h ==> InUse(s.tasks[i]))
    && (forall i :: w + h < i < |s.tasks| ==> Over(s.tasks[i]))
    && s.scoped == map[] && JustIdle(s.shared, s.now)
    && (forall id :: id in s.born ==> id < n)
    && (forall l :: l in s.leases ==> l < n)
  }

  /** Nothing was evicted or abandoned in between. */
  predicate NoneLost(s: State, s': State) {
    s'.evicted == s.evicted && s'.abandoned == s.abandoned
  }

  // ---------------------------------------------------------------- they take all permits

  lemma Takes(c: Config, start: State, s: State, n: nat, w: nat, h: nat) returns (s': State)
    requires Leads(c, start, s) && Staged(s, n, w, h) && w > 0 && s.permits > 0
    ensures Leads(c, start, s') && Staged(s', n + 1, w - 1, h + 1) && NoneLost(s, s')
    ensures s'.permits == s.permits - 1 && s'.active == s.active + 1 && s'.shared == s.shared
  {
    hide Leads;
    Launches(c, start, s, n, w);
    s' := Holding(c, s, n, w);
  }

  lemma {:induction false} TakeAll(c: Config, start: State, s: State, n: nat, w: nat, h: nat)
    returns (s': State, n': nat)
    requires Leads(c, start, s) && Staged(s, n, w, h) && w >= s.permits
    ensures Leads(c, start, s') && Staged(s', n', w - s.permits, h + s.permits) && NoneLost(s, s')
    ensures s'.permits == 0 && s'.active == s.active + s.permits && s'.shared == s.shared
    decreases s.permits
  {
    hide Leads, Staged;
    s', n' := s, n;
    if s.permits > 0 {
      var mid := Takes(c, start, s, n, w, h);
      s', n' := TakeAll(c, start, mid, n + 1, w - 1, h + 1);
    }
  }

  // ---------------------------------------------------------------- browsers die, others are launched

  lemma Dies(c: Config, start: State, s: State, n: nat, w: nat, h: nat) returns (s': State)
    requires Leads(c, start, s) && Staged(s, n, w, h) && h > 0
    ensures Leads(c, start, s') && Staged(s', n, w, h - 1) && NoneLost(s, s')
    ensures s'.permits == s.permits + 1 && s'.active == s.active && s'.shared == s.shared
  {
    hide Leads;
    s' := Discards(c, start, s, w + h);
    assert forall l :: l in s'.leases ==> l in s'.leases.Keys;
  }

  /** With no permit left, each browser that dies lets one caller that waits launch another one. */
  lemma {:induction false} Replace(c: Config, start: State, s: State, n: nat, w: nat, h: nat)
    returns (s': State, n': nat)
    requires Leads(c, start, s) && Staged(s, n, w, h) && h > 0 && s.permits == 0
    ensures Leads(c, start, s') && Staged(s', n', 0, h) && NoneLost(s, s')
    ensures s'.permits == 0 && s'.active == s.active + w && s'.shared == s.shared
    decreases w
  {
    hide Leads, Staged;
    s', n' := s, n;
    if w > 0 {
      var dead := Dies(c, start, s, n, w, h);
      var mid := Takes(c, start, dead, n, w, h - 1);
      s', n' := Replace(c, start, mid, n + 1, w - 1, h);
    }
  }

  // ---------------------------------------------------------------- the browsers come back

  lemma ComesBack(c: Config, s: State, n: nat, h: nat) returns (s': State)
    requires Leads(c, Init(c), s) && Staged(s, n, 0, h) && h > 0
    ensures Leads(c, Init(c), s') && Staged(s', n, 0, h - 1) && NoneLost(s, s')
    ensures s'.permits == s.permits && s'.active == s.active && |s'.shared| == |s.shared| + 1
  {
    hide Leads, Inv;
    ReachableLeads(c, s);
    ReachableInv(c, s);
    Returns(c, Init(c), s, h, Release);
    s' := Put(s.(shared := s.shared + [Entry(s.tasks[h].held.cargo, s.now)]), h, Done);
  }

  lemma {:induction false} ComeBack(c: Config, s: State, n: nat, h: nat) returns (s': State)
    requires Leads(c, Init(c), s) && Staged(s, n, 0, h)
    ensures Leads(c, Init(c), s') && Staged(s', n, 0, 0) && NoneLost(s, s')
    ensures s'.permits == s.permits && s'.active == s.active && |s'.shared| == |s.shared| + h
    decreases h
  {
    hide Leads, Staged;
    s' := s;
    if h > 0 {
      var mid := ComesBack(c, s, n, h);
      s' := ComeBack(c, mid, n, h - 1);
    }
  }

  lemma ReachableLeads(c: Config, s: State)
    ensures Reachable(c, s) <==> Leads(c, Init(c), s)
  {
  }

  lemma StageIsSet(c: Config, p: nat)
    ensures Staged(Init(c).(tasks := [Done] + Parked(p)), 0, p, 0)
  {
  }

  predicate AllOver(s: State) {
    |s.tasks| > 0 && s.tasks[0] == Done && forall i :: 0 <= i < |s.tasks| ==> Over(s.tasks[i])
  }

  predicate AllTimedOut(c: Config, q: seq<Entry>, now: nat) {
    forall k :: 0 <= k < |q| ==> Expired(q[k], now, c.idleTimeout)
  }

  /** All permits are in the hands of idle browsers that have timed out, and `min_size` shutdowns are still counted. */
  predicate Ripe(c: Config, s: State) {
    && AllOver(s) && !s.locked && s.scoped == map[] && |s.shared| == c.max && AllTimedOut(c, s.shared, s.now)
    && s.permits == 0 && s.active == c.max + c.min && s.evicted == 0 && s.abandoned == 0
  }

  lemma Ripens(c: Config) returns (s: State)
    requires c.max > 0
    ensures Reachable(c, s) && Ripe(c, s)
  {
    hide Leads, Staged, Reachable;
    var start := Init(c);
    var s0 := start.(tasks := [Done] + Parked(c.max + c.min));
    Park(c, c.max + c.min);
    StageIsSet(c, c.max + c.min);
    var s1, n1 := TakeAll(c, start, s0, 0, c.max + c.min, 0);
    var s2, n2 := Replace(c, start, s1, n1, c.min, c.max);
    var s3 := ComeBack(c, s2, n2, c.max);
    s := TimePasses(c, s3, n2);
    ReachableLeads(c, s);
  }

  lemma TimePasses(c: Config, s: State, n: nat) returns (s': State)
    requires Leads(c, Init(c), s) && Staged(s, n, 0, 0)
    ensures Leads(c, Init(c), s') && s' == s.(now := s'.now)
    ensures AllOver(s') && !s'.locked && s'.scoped == map[] && AllTimedOut(c, s'.shared, s'.now)
  {
    hide Leads;
    s' := s.(now := s.now + c.idleTimeout);
    Then(c, Init(c), s, Tick(s'.now), s');
  }

  // ---------------------------------------------------------------- one sweep takes them all

  lemma {:induction false} AllExpire(c: Config, q: seq<Entry>, now: nat)
    requires AllTimedOut(c, q, now)
    ensures ExpiredCount(q, now, c.idleTimeout) == |q|
  {
    hide Expired;
    if q != [] { AllExpire(c, q[..|q| - 1], now); }
  }

  lemma SweepTakesAll(c: Config, s: State)
    requires Reachable(c, s) && Ripe(c, s)
    ensures IsOrderOf([], s.scoped) && |SweptOut(c, s, [])| == c.max
  {
    hide SweptOut, Expired, LawsAt, Reachable;
    ReachableInv(c, s);
    SweepCount(c, s, []);
    AllExpire(c, s.shared, s.now);
  }

  // ---------------------------------------------------------------- the shutdowns end

  predicate Gone(t: Task) {
    t == Done || (t.Disposer? && t.disposer.EvictClosing?)
  }

  lemma {:induction false} ShutDown(c: Config, start: State, s: State, k: nat) returns (s': State)
    requires Leads(c, start, s) && AllOver(s) && k <= |s.tasks|
    requires forall i :: 0 <= i < k ==> Gone(s.tasks[i])
    ensures Leads(c, start, s') && NoneLost(s, s') && s'.permits == s.permits
    ensures forall i :: 0 <= i < |s'.tasks| ==> Gone(s'.tasks[i])
    decreases |s.tasks| - k
  {
    hide Leads;
    if k == |s.tasks| {
      s' := s;
    } else if Gone(s.tasks[k]) {
      s' := ShutDown(c, start, s, k + 1);
    } else {
      var mid := ShutsDown(c, start, s, k);
      s' := ShutDown(c, start, mid, k + 1);
    }
  }

  // ---------------------------------------------------------------- the two results

  /** The sweep of a ripe pool, from its first step to its last. */
  lemma SweptAway(c: Config, s: State) returns (s': State)
    requires Reachable(c, s) && Ripe(c, s)
    ensures Leads(c, Init(c), s') && AllOver(s') && s'.permits == 0 && s'.evicted == c.max && s'.abandoned == 0
  {
    hide Leads, Reachable, Exec, SweptOut, Expired, SweepEvents;
    SweepTakesAll(c, s);
    SweepRuns(c, s, []);
    s' := AfterSweep(c, s, []);
    ThenRun(c, s, SweepEvents([], |s.tasks|, c.max), s');
    var out := SweptOut(c, s, []);
    assert s'.tasks == s.tasks + [Done] + Shutdowns(out);
  }

  lemma ThenRun(c: Config, s: State, events: seq<Event>, s': State)
    requires Reachable(c, s) && Exec(c, s, events) == Some(s')
    ensures Leads(c, Init(c), s')
  {
    hide Exec;
    var before :| Exec(c, Init(c), before) == Some(s);
    ExecAppend(c, Init(c), before, s, events, s');
  }

  /**
   Every pool, whatever its `min_size`, has a run in which evictions alone take all its capacity. At
   its end nothing is active and nothing is going on, yet from there on no permit, no idle browser
   and no handle ever exists again.
   */
  lemma EvictionsExhaustThePool(c: Config) returns (s: State)
    requires c.max > 0
    ensures Reachable(c, s) && s.active == 0 && s.evicted == c.max && s.abandoned == 0
    ensures forall i :: 0 <= i < |s.tasks| ==> Gone(s.tasks[i])
    ensures forall events, s' :: Exec(c, s, events) == Some(s') ==>
              s'.permits == 0 && TotalIdle(s') == 0 && forall i :: 0 <= i < |s'.tasks| ==> !IsHandle(s'.tasks[i])
  {
    hide Exec, Reachable, Leads, Ripe, AllOver;
    var ripe := Ripens(c);
    var swept := SweptAway(c, ripe);
    s := ShutDown(c, Init(c), swept, 0);
    ReachableLeads(c, s);
    LaunchCapacity(c, s);
    forall later, s' | Exec(c, s, later) == Some(s')
      ensures s'.permits == 0 && TotalIdle(s') == 0 && forall i :: 0 <= i < |s'.tasks| ==> !IsHandle(s'.tasks[i])
    {
      DeadPoolStaysDead(c, s, later, s');
    }
  }

  lemma {:induction false} OverWaits(ts: seq<Task>)
    requires forall i :: 0 <= i < |ts| ==> Over(ts[i])
    ensures Waiting(ts) == 0
  {
    if ts != [] { OverWaits(ts[..|ts| - 1]); }
  }

  /**
   Every pool with a `min_size` has a run in which a sweep that found the counter above it, and left
   `min_size` by its own reckoning, ends with nothing active: what it counted on were shutdowns, which
   end while it is at work.
   */
  lemma SweepCanUndercut(c: Config) returns (s: State, s1: State, s2: State)
    requires c.max > 0
    ensures Reachable(c, s) && Next(c, s, Sweep([])) == Some(s1) && Leads(c, s1, s2) && Through(s, s2)
    ensures s.active == c.max + c.min && |SweptOut(c, s, [])| == c.max && s2.active == 0
  {
    hide Leads, Reachable, SweptOut, Inv, Waiting, Expired, SweepQueue, SweepScoped, ScopedIdle;
    s := Ripens(c);
    SweepTakesAll(c, s);
    s1 := SweepStep(c, s, []);
    SweepSets(c, s, [], s1);
    s2 := FloorIsReached(c, s1, |s.tasks|);
    OverWaits(s.tasks);
    NoScoped(s);
  }

  lemma NoScoped(s: State)
    requires s.scoped == map[]
    ensures TotalIdle(s) == |s.shared|
  {
  }
}
