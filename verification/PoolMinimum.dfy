/**
 When a sweep leaves `min_size` browsers: an exact condition on the state in which it starts.
 */
module PoolMinimum {
  import opened Options
  import opened PoolModel
  import opened PoolRuns
  import opened PoolMeasure
  import opened PoolInvariant
  import opened PoolSteps
  import opened PoolSweep
  import opened PoolTheorems
  import opened PoolTraces
  import opened PoolDrain

  /** How many releases of healthy browsers wait for the lock. */
  function Waiting(ts: seq<Task>): nat {
    Sum(LockWaits, ts)
  }

  /** What a sweep that is under way cannot lose: what it left idle, what waits for its lock, what was abandoned. */
  ghost function Floor(s: State): nat {
    TotalIdle(s) + Waiting(s.tasks) + s.abandoned
  }

  // ---------------------------------------------------------------- nobody goes below the floor

  lemma {:induction false} WaitersCount(ts: seq<Task>)
    ensures Waiting(ts) <= TasksW(Counted, ts)
  {
    if ts != [] { WaitersCount(ts[..|ts| - 1]); }
  }

  lemma CounterAboveFloor(c: Config, s: State)
    requires Inv(c, s)
    ensures s.active >= Floor(s)
    ensures TasksW(Counted, s.tasks) == Waiting(s.tasks) ==> s.active == Floor(s)
  {
    assert LawsAt(c, s, 0, 0);
    EntriesSlots(s.shared);
    ScopedCounted(s.scoped);
    WaitersCount(s.tasks);
  }

  lemma RunKeepsFloor(c: Config, s: State, i: nat, env: Env, s': State)
    requires s.locked && i < |s.tasks| && RunStep(c, s, i, env) == Some(s')
    ensures Floor(s') >= Floor(s)
  {
    hide RunStep, SweepMoves, Sum, ScopedIdle;
    var t, spawned := RunShape(c, s, i, env, s');
    ShapeWaits(s.tasks, i, t, spawned);
  }

  lemma CancelKeepsFloor(s: State, i: nat, s': State)
    requires s.locked && i < |s.tasks| && CancelStep(s, i) == Some(s')
    ensures Floor(s') >= Floor(s)
  {
    hide CancelStep, SweepMoves, Sum, ScopedIdle;
    CancelShape(s, i, s');
    ShapeWaits(s.tasks, i, Done, []);
  }

  lemma ShapeWaits(ts: seq<Task>, i: nat, t: Task, spawned: seq<Task>)
    requires i < |ts| && FewSpawned(spawned)
    ensures Waiting(ts[i := t] + spawned) + OneIf(AwaitsLock(ts[i])) == Waiting(ts) + OneIf(AwaitsLock(t))
  {
    SumStep(LockWaits, ts, i, t, spawned);
    if spawned != [] {
      assert spawned == [spawned[0]];
      SumOne(LockWaits, spawned[0]);
    }
  }

  lemma NextKeepsFloor(c: Config, s: State, ev: Event, s': State)
    requires s.locked && Next(c, s, ev) == Some(s')
    ensures Floor(s') >= Floor(s)
  {
    hide RunStep, CancelStep, Sum, ScopedIdle;
    match ev {
      case Run(i, env) => RunKeepsFloor(c, s, i, env, s');
      case Cancel(i) => CancelKeepsFloor(s, i, s');
      case NewAcquire(ctx) => JoinWaits(s.tasks, Acq(Start(ctx)));
      case NewReleaseContext(id) => JoinWaits(s.tasks, Releasing(CtxLock(id)));
      case _ =>
    }
  }

  lemma JoinWaits(ts: seq<Task>, t: Task)
    requires !AwaitsLock(t)
    ensures Waiting(ts + [t]) == Waiting(ts)
  {
    SumAppend(LockWaits, ts, [t]);
    SumOne(LockWaits, t);
  }

  /** As long as the sweep at `j` goes on, the floor holds. */
  lemma {:induction false} FloorHolds(c: Config, s: State, events: seq<Event>, s': State, j: nat)
    requires Alone(s, j) && Exec(c, s, events) == Some(s') && j < |s'.tasks| && s'.tasks[j].Sweeping?
    ensures Floor(s') >= Floor(s)
  {
    hide Next, Floor;
    if events != [] {
      var ev, before := events[|events| - 1], Exec(c, s, events[..|events| - 1]).value;
      SweepGoesOn(c, s, events[..|events| - 1], before, j);
      NextKeepsSweep(c, before, ev, s', j);
      FloorHolds(c, s, events[..|events| - 1], before, j);
      NextKeepsFloor(c, before, ev, s');
    }
  }

  // ---------------------------------------------------------------- the floor is reached

  predicate NoneWarms(s: State) {
    forall k :: 0 <= k < |s.tasks| ==> !Warming(s.tasks[k])
  }

  /** What can go on while the sweep keeps the lock. */
  predicate Movable(min: nat, t: Task) {
    Rank(min, t) > 0 && !AwaitsLock(t) && t != Sweeping(Evict([]))
  }

  lemma MoveOne(c: Config, s: State, j: nat, i: nat) returns (s': State)
    requires Inv(c, s) && Alone(s, j) && NoneWarms(s) && i < |s.tasks| && Movable(c.min, s.tasks[i])
    ensures Next(c, s, Run(i, Nudge(c, s.tasks[i]))) == Some(s')
    ensures Inv(c, s') && Alone(s', j) && NoneWarms(s') && Floor(s') == Floor(s)
    ensures Sum(StepsLeft(c.min), s'.tasks) < Sum(StepsLeft(c.min), s.tasks)
  {
    hide Inv, RunStep, Rank, Sum, ScopedIdle, Nudge;
    s' := StepDown(c, s, i);
    NextKeeps(c, s, Run(i, Nudge(c, s.tasks[i])), s');
    StaysSweeping(c, s, i, s');
  }

  lemma StaysSweeping(c: Config, s: State, i: nat, s': State)
    requires i < |s.tasks| && s.tasks[i] != Sweeping(Evict([])) && Next(c, s, Run(i, Nudge(c, s.tasks[i]))) == Some(s')
    ensures s.tasks[i].Sweeping? ==> s'.tasks[i].Sweeping?
  {
    hide WarmStep, AcquireStep, LaunchStep, ReleaseStep, DisposerStep, ContextStep;
  }

  /** Everything but the releases that wait for the lock comes to its end, and the sweep to its last step. */
  lemma {:induction false} DrainAround(c: Config, start: State, s: State, j: nat) returns (s': State)
    requires Leads(c, start, s) && Inv(c, s) && Alone(s, j) && NoneWarms(s)
    ensures Leads(c, start, s') && Inv(c, s') && Alone(s', j) && Floor(s') == Floor(s)
    ensures forall i :: 0 <= i < |s'.tasks| ==> !Movable(c.min, s'.tasks[i])
    decreases Sum(StepsLeft(c.min), s.tasks)
  {
    hide Leads, Inv, Alone, NoneWarms, Floor, Next, Sum, Movable;
    if i :| 0 <= i < |s.tasks| && Movable(c.min, s.tasks[i]) {
      var mid := MoveOne(c, s, j, i);
      Then(c, start, s, Run(i, Nudge(c, s.tasks[i])), mid);
      s' := DrainAround(c, start, mid, j);
    } else {
      s' := s;
    }
  }

  lemma StuckWeighs(c: Config, born: map<nat, Origin>, t: Task)
    requires TaskOk(born, t) && !Movable(c.min, t)
    ensures TaskW(Counted, t) == OneIf(AwaitsLock(t))
  {
  }

  lemma {:induction false} StuckCount(c: Config, born: map<nat, Origin>, ts: seq<Task>)
    requires forall i :: 0 <= i < |ts| ==> TaskOk(born, ts[i]) && !Movable(c.min, ts[i])
    ensures TasksW(Counted, ts) == Waiting(ts)
  {
    hide TaskOk, Movable, TaskW;
    if ts != [] {
      StuckCount(c, born, ts[..|ts| - 1]);
      StuckWeighs(c, born, ts[|ts| - 1]);
    }
  }

  lemma LastStep(c: Config, t: Task)
    requires t.Sweeping? && !Movable(c.min, t)
    ensures t == Sweeping(Evict([]))
  {
  }

  /** From every state of a sweep there is a run to its last step on which the counter goes down to the floor. */
  lemma FloorIsReached(c: Config, s: State, j: nat) returns (s': State)
    requires Inv(c, s) && Alone(s, j) && NoneWarms(s)
    ensures Leads(c, s, s') && j < |s'.tasks| && s'.tasks[j] == Sweeping(Evict([])) && s'.active == Floor(s)
  {
    hide Leads, Inv, NoneWarms, Floor, Movable;
    Stay(c, s);
    s' := DrainAround(c, s, s, j);
    forall i | 0 <= i < |s'.tasks| ensures TaskOk(s'.born, s'.tasks[i]) {
      TaskIsOk(c, s', i);
    }
    StuckCount(c, s'.born, s'.tasks);
    CounterAboveFloor(c, s');
    LastStep(c, s'.tasks[j]);
  }

  // ---------------------------------------------------------------- the condition

  /** In `s'` the sweep that started in `s` has dealt with its last entry and still holds the lock. */
  predicate Through(s: State, s': State) {
    |s.tasks| < |s'.tasks| && s'.tasks[|s.tasks|] == Sweeping(Evict([]))
  }

  lemma SweepJoins(c: Config, s: State, order: seq<Context>, s1: State)
    requires OneSweep(s) && FirstWarms(s) && Next(c, s, Sweep(order)) == Some(s1)
    ensures s1 == SweepStep(c, s, order) && Alone(s1, |s.tasks|) && NoneWarms(s1)
    ensures Waiting(s1.tasks) == Waiting(s.tasks) && s1.abandoned == s.abandoned
  {
    hide SweptOut, Waiting, SweepQueue, SweepScoped, ScopedIdle, WithoutEmpty;
    JoinWaits(s.tasks, Sweeping(Evict(SweptOut(c, s, order))));
  }

  lemma SweepSets(c: Config, s: State, order: seq<Context>, s1: State)
    requires Reachable(c, s) && Next(c, s, Sweep(order)) == Some(s1)
    ensures Inv(c, s1) && Alone(s1, |s.tasks|) && NoneWarms(s1)
    ensures Waiting(s1.tasks) == Waiting(s.tasks) && s1.abandoned == s.abandoned
    ensures TotalIdle(s1) == TotalIdle(s) - |SweptOut(c, s, order)|
  {
    hide Inv, OneSweep, FirstWarms, Alone, NoneWarms, Waiting, TotalIdle, SweptOut, SweepStep;
    var start :| Exec(c, Init(c), start) == Some(s);
    SweepsExclude(c, start, s);
    OnlyFirstWarms(c, start, s);
    ReachableInv(c, s);
    NextKeeps(c, s, Sweep(order), s1);
    SweepJoins(c, s, order, s1);
    SweepIdle(c, s, order);
  }

  lemma SweepIdle(c: Config, s: State, order: seq<Context>)
    ensures TotalIdle(SweepStep(c, s, order)) == TotalIdle(s) - |SweptOut(c, s, order)|
  {
    hide SweptOut, SweepQueue, SweepScoped, WithoutEmpty, TaskW, ScopedIdle;
    var s1, t := SweepStep(c, s, order), Sweeping(Evict(SweptOut(c, s, order)));
    SweepTotal(Slot, c, s, order);
    TasksAppend(Slot, s.tasks, [t]);
    TasksOne(Slot, t);
    EntriesSlots(s.shared);
    EntriesSlots(s1.shared);
    ScopedSlots(s.scoped);
    ScopedSlots(s1.scoped);
    EvictSlots(SweptOut(c, s, order));
  }

  lemma EvictSlots(out: seq<Entry>)
    ensures TaskW(Slot, Sweeping(Evict(out))) == |out|
  {
    EntriesSlots(out);
  }

  /**
   How low a sweep among other activities can take the counter: to what it leaves idle, plus the
   releases that wait for the lock, plus what was abandoned before. No run goes lower, and one goes that low.
   */
  lemma LowestAfterSweep(c: Config, s: State, order: seq<Context>, s1: State)
    requires Reachable(c, s) && Next(c, s, Sweep(order)) == Some(s1)
    ensures var floor := TotalIdle(s) - |SweptOut(c, s, order)| + Waiting(s.tasks) + s.abandoned;
            && (forall events, s2 :: Exec(c, s1, events) == Some(s2) && Through(s, s2) ==> s2.active >= floor)
            && (exists events, s2 :: Exec(c, s1, events) == Some(s2) && Through(s, s2) && s2.active == floor)
  {
    hide Next, Inv, NoneWarms, Waiting, TotalIdle, SweptOut;
    SweepSets(c, s, order, s1);
    forall events, s2 | Exec(c, s1, events) == Some(s2) && Through(s, s2) ensures s2.active >= Floor(s1) {
      FloorHolds(c, s1, events, s2, |s.tasks|);
      ExecKeeps(c, s1, events, s2);
      CounterAboveFloor(c, s2);
    }
    var low := FloorIsReached(c, s1, |s.tasks|);
    var events :| Exec(c, s1, events) == Some(low);
  }

  /**
   The minimum survives a sweep, whatever the others do meanwhile, iff the browsers the sweep leaves
   idle, the releases that wait for the lock and what was abandoned before make up `min_size`.
   */
  lemma MinimumSurvivesIff(c: Config, s: State, order: seq<Context>, s1: State)
    requires Reachable(c, s) && Next(c, s, Sweep(order)) == Some(s1)
    ensures (forall events, s2 :: Exec(c, s1, events) == Some(s2) && Through(s, s2) ==> s2.active >= c.min)
       <==> TotalIdle(s) - |SweptOut(c, s, order)| + Waiting(s.tasks) + s.abandoned >= c.min
  {
    hide Exec, Next, Through, Waiting, TotalIdle, SweptOut;
    LowestAfterSweep(c, s, order, s1);
  }
}
