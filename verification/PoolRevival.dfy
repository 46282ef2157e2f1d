/**
 When a pool can still hand out a browser: as long as evictions and abandoned calls, with those a
 running sweep has decided on, have not used up `max_size`.
 */
module PoolRevival {
  import opened Options
  import opened PoolModel
  import opened PoolRuns
  import opened PoolCallers
  import opened PoolMeasure
  import opened PoolInvariant
  import opened PoolSteps
  import opened PoolTheorems
  import opened PoolTraces
  import opened PoolDrain

  /** The capacity that is lost or that a running sweep will still take. */
  function Lost(s: State): nat {
    s.evicted + s.abandoned + Sum(ToEvict, s.tasks)
  }

  ghost predicate Serves(s: State) {
    exists i :: 0 <= i < |s.tasks| && IsHandle(s.tasks[i])
  }

  // ---------------------------------------------------------------- what is lost stays lost

  lemma JoinLoses(s: State, t: Task)
    ensures Sum(ToEvict, s.tasks + [t]) == Sum(ToEvict, s.tasks) + Pending(t)
  {
    SumAppend(ToEvict, s.tasks, [t]);
    SumOne(ToEvict, t);
  }

  lemma NextLoses(c: Config, s: State, ev: Event, s': State)
    requires Next(c, s, ev) == Some(s')
    ensures Lost(s') >= Lost(s)
  {
    hide RunStep, CancelStep, SweptOut, SweepQueue, SweepScoped, ScopedIdle, Sum, IdleMoves;
    match ev {
      case Run(i, env) =>
        var t, spawned := RunShape(c, s, i, env, s');
        ShapeSums(c.min, s, s', i, t, spawned);
        RunRegainsNone(c, s, i, env, s');
      case Cancel(i) =>
        CancelShape(s, i, s');
        CancelLoses(s, i, s');
        ShapeSums(c.min, s, s', i, Done, []);
      case NewAcquire(ctx) => JoinLoses(s, Acq(Start(ctx)));
      case NewReleaseContext(id) => JoinLoses(s, Releasing(CtxLock(id)));
      case Sweep(order) => JoinLoses(s, Sweeping(Evict(SweptOut(c, s, order))));
      case Tick(_) =>
    }
  }

  lemma {:induction false} ExecLoses(c: Config, s: State, events: seq<Event>, s': State)
    requires Exec(c, s, events) == Some(s')
    ensures Lost(s') >= Lost(s)
  {
    hide Next, Lost;
    if events != [] {
      var before := Exec(c, s, events[..|events| - 1]).value;
      ExecLoses(c, s, events[..|events| - 1], before);
      NextLoses(c, before, events[|events| - 1], s');
    }
  }

  lemma PendingIsSlot(t: Task)
    ensures Pending(t) + OneIf(IsHandle(t)) <= TaskW(Slot, t)
  {
    if t.Sweeping? { EntriesSlots(t.sweep.entries); }
  }

  lemma {:induction false} PendingAreSlots(ts: seq<Task>)
    ensures Sum(ToEvict, ts) + Handles(ts) <= TasksW(Slot, ts)
  {
    hide TaskW, Pending, IsHandle;
    if ts != [] {
      PendingAreSlots(ts[..|ts| - 1]);
      PendingIsSlot(ts[|ts| - 1]);
    }
  }

  lemma {:induction false} SomeHandle(ts: seq<Task>, i: nat)
    requires i < |ts| && IsHandle(ts[i])
    ensures Handles(ts) > 0
  {
    if i < |ts| - 1 { SomeHandle(ts[..|ts| - 1], i); }
  }

  /** Who holds a browser holds a unit that is not lost. */
  lemma ServesWithin(c: Config, s: State)
    requires Inv(c, s) && Serves(s)
    ensures Lost(s) < c.max
  {
    var i :| 0 <= i < |s.tasks| && IsHandle(s.tasks[i]);
    SomeHandle(s.tasks, i);
    PendingAreSlots(s.tasks);
    assert LawsAt(c, s, 0, 0);
  }

  // ---------------------------------------------------------------- everything comes to its end

  predicate CanMove(min: nat, s: State, t: Task) {
    Rank(min, t) > 0 && (AwaitsLock(t) ==> !s.locked)
  }

  /** The invariants the way to the end relies on. */
  ghost predicate Orderly(c: Config, s: State) {
    Inv(c, s) && OneSweep(s) && FirstWarms(s)
  }

  lemma NextIsOrderly(c: Config, s: State, ev: Event, s': State)
    requires Orderly(c, s) && Next(c, s, ev) == Some(s')
    ensures Orderly(c, s')
  {
    hide Inv, OneSweep, FirstWarms, Next;
    NextKeeps(c, s, ev, s');
    NextKeepsOneSweep(c, s, ev, s');
    NextKeepsFirstWarms(c, s, ev, s');
  }

  lemma ReachableIsOrderly(c: Config, s: State)
    requires Reachable(c, s)
    ensures Orderly(c, s)
  {
    hide Inv, OneSweep, FirstWarms, Exec;
    var events :| Exec(c, Init(c), events) == Some(s);
    ReachableInv(c, s);
    SweepsExclude(c, events, s);
    OnlyFirstWarms(c, events, s);
  }

  lemma MoveOn(c: Config, s: State, i: nat) returns (s': State)
    requires Orderly(c, s) && i < |s.tasks| && CanMove(c.min, s, s.tasks[i])
    ensures Next(c, s, Run(i, Nudge(c, s.tasks[i]))) == Some(s') && Orderly(c, s') && Lost(s') == Lost(s)
    ensures Sum(StepsLeft(c.min), s'.tasks) < Sum(StepsLeft(c.min), s.tasks)
  {
    hide Inv, OneSweep, FirstWarms, Next, Sum, Rank, Nudge, Moves, IdleMoves;
    s' := StepDown(c, s, i);
    NextIsOrderly(c, s, Run(i, Nudge(c, s.tasks[i])), s');
  }

  /** Nothing goes on: no lock is held, nothing is counted and no capacity is in use but what is idle. */
  predicate AtRest(c: Config, s: State) {
    WarmedUp(s) && !s.locked && forall i :: 0 <= i < |s.tasks| ==> Rank(c.min, s.tasks[i]) == 0
  }

  lemma NothingMoves(c: Config, s: State)
    requires OneSweep(s) && FirstWarms(s) && forall i :: 0 <= i < |s.tasks| ==> !CanMove(c.min, s, s.tasks[i])
    ensures AtRest(c, s)
  {
    assert !CanMove(c.min, s, s.tasks[0]);
  }

  lemma {:induction false} DrainAll(c: Config, start: State, s: State) returns (s': State)
    requires Leads(c, start, s) && Orderly(c, s)
    ensures Leads(c, start, s') && Orderly(c, s') && AtRest(c, s') && Lost(s') == Lost(s)
    decreases Sum(StepsLeft(c.min), s.tasks)
  {
    hide Leads, Inv, OneSweep, FirstWarms, Next, Sum, CanMove, Lost, AtRest;
    if i :| 0 <= i < |s.tasks| && CanMove(c.min, s, s.tasks[i]) {
      var mid := MoveOn(c, s, i);
      Then(c, start, s, Run(i, Nudge(c, s.tasks[i])), mid);
      s' := DrainAll(c, start, mid);
    } else {
      s' := s;
      NothingMoves(c, s);
    }
  }

  lemma RestWeighs(c: Config, born: map<nat, Origin>, t: Task)
    requires TaskOk(born, t) && Rank(c.min, t) == 0
    ensures TaskW(Slot, t) == 0 && TaskW(Counted, t) == 0 && Pending(t) == 0
  {
  }

  lemma {:induction false} RestWeigh(c: Config, born: map<nat, Origin>, ts: seq<Task>)
    requires forall i :: 0 <= i < |ts| ==> TaskOk(born, ts[i]) && Rank(c.min, ts[i]) == 0
    ensures TasksW(Slot, ts) == 0 && TasksW(Counted, ts) == 0 && Sum(ToEvict, ts) == 0
  {
    hide TaskOk, Rank, TaskW, Pending;
    if ts != [] {
      RestWeigh(c, born, ts[..|ts| - 1]);
      RestWeighs(c, born, ts[|ts| - 1]);
    }
  }

  /** At rest, what is not lost is a permit or idle, and the counter counts the idle and the abandoned. */
  lemma RestIsEven(c: Config, s: State)
    requires Inv(c, s) && AtRest(c, s)
    ensures s.permits + TotalIdle(s) + Lost(s) == c.max && s.active == TotalIdle(s) + s.abandoned
    ensures Lost(s) == s.evicted + s.abandoned
  {
    hide Rank, TaskOk;
    RestWeigh(c, s.born, s.tasks);
    assert LawsAt(c, s, 0, 0);
    EntriesSlots(s.shared);
    ScopedSlots(s.scoped);
    ScopedCounted(s.scoped);
  }

  // ---------------------------------------------------------------- and a call is served

  lemma SomeQueue(s: State) returns (ctx: Option<Context>)
    requires TotalIdle(s) > 0
    ensures GetQueue(s, ctx) != []
  {
    ctx := None;
    if s.shared == [] {
      var id := SomeScoped(s.scoped);
      ctx := Some(id);
    }
  }

  lemma {:induction false} SomeScoped(m: map<Context, seq<Entry>>) returns (id: Context)
    requires ScopedIdle(m) > 0
    ensures id in m && m[id] != []
    decreases |m.Keys|
  {
    var k :| k in m.Keys && ScopedIdle(m) == |m[k]| + ScopedIdle(m - {k});
    if m[k] != [] {
      id := k;
    } else {
      assert (m - {k}).Keys == m.Keys - {k};
      id := SomeScoped(m - {k});
    }
  }

  lemma Fresh(keys: set<nat>) returns (n: nat)
    ensures forall k :: k in keys ==> k < n
    decreases |keys|
  {
    n := 0;
    if keys != {} {
      var k :| k in keys;
      var m := Fresh(keys - {k});
      n := if k < m then m else k + 1;
      forall j | j in keys ensures j < n {
        assert j == k || j in keys - {k};
      }
    }
  }

  lemma Unused(s: State) returns (n: nat)
    ensures n !in s.born && n !in s.leases
  {
    n := Fresh(s.born.Keys + s.leases.Keys);
    assert n !in s.born.Keys + s.leases.Keys;
  }

  lemma ServedFromQueue(c: Config, start: State, s: State, ctx: Option<Context>) returns (s': State)
    requires Leads(c, start, s) && Inv(c, s) && WarmedUp(s) && !s.locked && GetQueue(s, ctx) != []
    ensures Leads(c, start, s') && Serves(s')
  {
    hide Leads, Inv;
    var q, i := GetQueue(s, ctx), |s.tasks|;
    QueueIsOk(c, s, ctx);
    HealthyPop(q);
    Arrives(c, start, s, ctx);
    var b, found := PutBack(s, ctx, q[1..]), Some(q[0].cargo);
    SameQueue(s, Acq(Fast(ctx, s.active)), ctx, q[1..]);
    StepLast(c, start, s, Acq(Fast(ctx, s.active)), Quiet, b, Acq(Dispose(ctx, s.active, found, [])));
    StepLast(c, start, b, Acq(Dispose(ctx, s.active, found, [])), Quiet, b, Held(Handle(ctx, q[0].cargo)));
    s' := With(b, Held(Handle(ctx, q[0].cargo)));
    assert IsHandle(s'.tasks[i]);
  }

  lemma SameQueue(s: State, t: Task, ctx: Option<Context>, q: seq<Entry>)
    ensures GetQueue(With(s, t), ctx) == GetQueue(s, ctx)
    ensures PutBack(With(s, t), ctx, q) == With(PutBack(s, ctx, q), t)
  {
  }

  lemma ServedByLaunch(c: Config, start: State, s: State) returns (s': State)
    requires Leads(c, start, s) && WarmedUp(s) && !s.locked && s.shared == [] && s.active < c.max && s.permits > 0
    ensures Leads(c, start, s') && Serves(s')
  {
    hide Leads;
    Parks(c, start, s);
    var n := Unused(s);
    var p, s1 := |s.tasks|, With(s, Acq(Wait(None, s.active)));
    Launches(c, start, s1, n, p);
    s' := Holding(c, s1, n, p);
    assert IsHandle(s'.tasks[p]);
  }

  lemma RestServes(c: Config, start: State, s: State) returns (s': State)
    requires Leads(c, start, s) && Inv(c, s) && AtRest(c, s) && Lost(s) < c.max
    ensures Leads(c, start, s') && Serves(s')
  {
    hide Leads, Inv, Serves, ScopedIdle;
    RestIsEven(c, s);
    if TotalIdle(s) > 0 {
      var ctx := SomeQueue(s);
      s' := ServedFromQueue(c, start, s, ctx);
    } else {
      s' := ServedByLaunch(c, start, s);
    }
  }

  /**
   From every reachable state some run leads to a browser in a caller's hands iff evictions, abandoned
   calls and what a running sweep has decided on have not used up `max_size`.
   */
  lemma ServesAgainIff(c: Config, s: State)
    requires Reachable(c, s)
    ensures (exists events, s' :: Exec(c, s, events) == Some(s') && Serves(s')) <==> Lost(s) < c.max
  {
    hide Exec, Inv, Lost, Serves, AtRest;
    ReachableIsOrderly(c, s);
    if events, s' :| Exec(c, s, events) == Some(s') && Serves(s') {
      ExecLoses(c, s, events, s');
      ExecKeeps(c, s, events, s');
      ServesWithin(c, s');
    }
    if Lost(s) < c.max {
      Stay(c, s);
      var rest := DrainAll(c, s, s);
      var s' := RestServes(c, s, rest);
      var events :| Exec(c, s, events) == Some(s');
    }
  }
}
