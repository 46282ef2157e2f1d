/**
 What whole runs of the pool do, event by event: what moves `active_count`, what marks a lease,
 and what stays as it is while a sweep is at work.
 */
module PoolTraces {
  import opened Options
  import opened PoolModel
  import opened PoolMeasure
  import opened PoolInvariant
  import opened PoolSteps
  import opened PoolTheorems

  datatype Happening =
    | Counting               // a launch adds itself to `active_count`
    | GivingBack             // a failed launch or an ended shutdown subtracts itself
    | Clearing(lease: nat)   // a sweep or `release_context` takes an entry with this lease out of service

  predicate Happens(what: Happening, s: State, ev: Event) {
    && ev.Run? && ev.i < |s.tasks|
    && var t := s.tasks[ev.i];
       match what
       case Counting => t.Launching? && t.launch.Count?
       case GivingBack => (t.Launching? && t.launch.Uncount?) || t == Disposer(Closed)
       case Clearing(l) =>
         || (t.Sweeping? && t.sweep.Evict? && t.sweep.entries != [] && t.sweep.entries[0].cargo.lease == Some(l))
         || (t.Releasing? && t.context.CtxDrain? && t.context.entries != []
             && t.context.entries[0].cargo.lease == Some(l))
  }

  /** How often it happens in a run from `s`. */
  ghost function Occurrences(c: Config, s: State, events: seq<Event>, what: Happening): nat {
    if events == [] then 0
    else
      var before := Exec(c, s, events[..|events| - 1]);
      Occurrences(c, s, events[..|events| - 1], what)
      + OneIf(before.Some? && Happens(what, before.value, events[|events| - 1]))
  }

  // ---------------------------------------------------------------- what moves the counter

  /** Who is about to subtract from `active_count` finds it positive. */
  lemma CountedIsPositive(c: Config, s: State, i: nat)
    requires Inv(c, s) && i < |s.tasks| && TaskW(Counted, s.tasks[i]) > 0
    ensures s.active > 0
  {
    assert LawsAt(c, s, 0, 0);
    TaskWithin(Counted, s, i);
  }

  ghost predicate Booked(s: State, s': State, counts: bool, gives: bool) {
    s'.active + s'.evicted + OneIf(gives) == s.active + s.evicted + OneIf(counts)
  }

  lemma WarmBooks(c: Config, s: State, i: nat, pc: WarmPc, env: Env, s': State)
    requires i < |s.tasks| && WarmStep(c, s, i, pc, env) == Some(s')
    ensures Booked(s, s', false, false)
  {
  }

  lemma AcquireBooks(c: Config, s: State, i: nat, pc: AcqPc, env: Env, s': State)
    requires i < |s.tasks| && AcquireStep(c, s, i, pc, env) == Some(s')
    ensures Booked(s, s', false, false)
  {
    hide FastPop;
  }

  lemma LaunchBooks(s: State, i: nat, pc: LaunchPc, env: Env, s': State)
    requires i < |s.tasks| && LaunchStep(s, i, pc, env) == Some(s') && (pc.Uncount? ==> s.active > 0)
    ensures Booked(s, s', pc.Count?, pc.Uncount?)
  {
  }

  lemma ReleaseBooks(c: Config, s: State, i: nat, pc: HandlePc, env: Env, s': State)
    requires i < |s.tasks| && ReleaseStep(c, s, i, pc, env) == Some(s')
    ensures Booked(s, s', false, false)
  {
  }

  lemma OtherBooks(s: State, i: nat, d: DisposerPc, pc: ContextPc, sweep: SweepPc)
    requires i < |s.tasks|
    ensures (d.Closed? ==> s.active > 0) ==> Booked(s, DisposerStep(s, i, d), false, d.Closed?)
    ensures Booked(s, ContextStep(s, i, pc), false, false)
    ensures (sweep.EvictCount? ==> s.active > 0) ==> Booked(s, EvictStep(s, i, sweep), false, false)
  {
  }

  lemma RunBooks(c: Config, s: State, i: nat, env: Env, s': State)
    requires Inv(c, s) && i < |s.tasks| && RunStep(c, s, i, env) == Some(s')
    ensures Booked(s, s', Happens(Counting, s, Run(i, env)), Happens(GivingBack, s, Run(i, env)))
  {
    hide Inv, Booked, WarmStep, AcquireStep, LaunchStep, ReleaseStep, DisposerStep, ContextStep, EvictStep;
    if TaskW(Counted, s.tasks[i]) > 0 {
      CountedIsPositive(c, s, i);
    }
    match s.tasks[i] {
      case Done =>
      case Warm(pc) => WarmBooks(c, s, i, pc, env, s');
      case Acq(pc) => AcquireBooks(c, s, i, pc, env, s');
      case Launching(pc) => LaunchBooks(s, i, pc, env, s');
      case Held(pc) => ReleaseBooks(c, s, i, pc, env, s');
      case Disposer(pc) => OtherBooks(s, i, pc, CtxLock(""), Evict([]));
      case Releasing(pc) => OtherBooks(s, i, Closed, pc, Evict([]));
      case Sweeping(pc) => OtherBooks(s, i, Closed, CtxLock(""), pc);
    }
  }

  lemma NextBooks(c: Config, s: State, ev: Event, s': State)
    requires Inv(c, s) && Next(c, s, ev) == Some(s')
    ensures Booked(s, s', Happens(Counting, s, ev), Happens(GivingBack, s, ev))
  {
    hide Inv, RunStep;
    if ev.Run? {
      RunBooks(c, s, ev.i, ev.env, s');
    }
  }

  /** Along every run the counter is what was counted, less what was given back and what sweeps took. */
  lemma {:induction false} ActiveLedger(c: Config, s: State, events: seq<Event>, s': State)
    requires Inv(c, s) && Exec(c, s, events) == Some(s')
    ensures s'.active + s'.evicted + Occurrences(c, s, events, GivingBack)
         == s.active + s.evicted + Occurrences(c, s, events, Counting)
  {
    hide Inv, Next, Happens;
    if events != [] {
      var p, ev := events[..|events| - 1], events[|events| - 1];
      var before := Exec(c, s, p).value;
      ActiveLedger(c, s, p, before);
      ExecKeeps(c, s, p, before);
      NextBooks(c, before, ev, s');
    }
  }

  // ---------------------------------------------------------------- one sweep at a time

  /** The sweep at `j` is the only one, and it holds the lock. */
  predicate Alone(s: State, j: nat) {
    && j < |s.tasks| && s.tasks[j].Sweeping? && s.locked
    && forall k :: 0 <= k < |s.tasks| && k != j ==> !s.tasks[k].Sweeping?
  }

  ghost predicate OneSweep(s: State) {
    if s.locked then exists j :: Alone(s, j) else forall k :: 0 <= k < |s.tasks| ==> !s.tasks[k].Sweeping?
  }

  /** What a sweep has still to subtract. */
  function Pending(t: Task): nat {
    if !t.Sweeping? then 0 else |t.sweep.entries| + OneIf(t.sweep.EvictCount?)
  }

  /** The task of the warm-up loop. */
  predicate Warming(t: Task) {
    t.Warm? || (t.Launching? && t.launch.who.Warmer?)
  }

  /** A release that waits for the lock. */
  predicate AwaitsLock(t: Task) {
    t.Held? && t.held.RelLock?
  }

  /** One task moves; unless it is a sweep, no sweep starts or ends, and nothing is evicted. */
  ghost predicate Moves(s: State, s': State, i: nat) {
    && i < |s.tasks| <= |s'.tasks|
    && (forall k :: 0 <= k < |s.tasks| && k != i ==> s'.tasks[k] == s.tasks[k])
    && (forall k :: |s.tasks| <= k < |s'.tasks| ==> s'.tasks[k].Disposer?)
    && SweepMoves(s, s', i, s'.tasks[i])
  }

  ghost predicate SweepMoves(s: State, s': State, i: nat, t: Task)
    requires i < |s.tasks|
  {
    && (if s.tasks[i].Sweeping? then
          && s'.evicted + Pending(t) == s.evicted + Pending(s.tasks[i])
          && (if t.Sweeping? then s'.locked == s.locked else !s'.locked)
        else !t.Sweeping? && s'.locked == s.locked && s'.evicted == s.evicted)
    && (Warming(t) ==> Warming(s.tasks[i]))
    && (Warming(s.tasks[i]) ==> Warming(t) || t == Done)
  }

  /** Under the lock of a sweep no queue loses an entry, and a release that waits for the lock can only be abandoned. */
  ghost predicate IdleMoves(s: State, s': State, i: nat, t: Task)
    requires i < |s.tasks|
  {
    s.locked ==>
      && s'.scoped == s.scoped
      && (if s.tasks[i].Warm? then |s'.shared| >= |s.shared| else s'.shared == s.shared)
      && OneIf(AwaitsLock(t)) + s'.abandoned >= OneIf(AwaitsLock(s.tasks[i])) + s.abandoned
  }

  predicate FewSpawned(spawned: seq<Task>) {
    |spawned| <= 1 && (spawned != [] ==> spawned[0].Disposer?)
  }

  lemma ShapeMoves(s: State, s': State, i: nat, t: Task, spawned: seq<Task>)
    requires i < |s.tasks| && FewSpawned(spawned) && s'.tasks == s.tasks[i := t] + spawned && SweepMoves(s, s', i, t)
    ensures Moves(s, s', i)
  {
  }

  lemma WarmMoves(c: Config, s: State, i: nat, env: Env, s': State) returns (t: Task)
    requires i < |s.tasks| && s.tasks[i].Warm? && WarmStep(c, s, i, s.tasks[i].warm, env) == Some(s')
    ensures s'.tasks == s.tasks[i := t] + [] && SweepMoves(s, s', i, t) && IdleMoves(s, s', i, t)
  {
    hide Depart, Drop;
    match s.tasks[i].warm {
      case WarmNext(n) =>
        t := if n >= c.min then Done
             else if env == BindFailed then Warm(WarmNext(n + 1))
             else Warm(WarmPermit(n, if env.Bound? then Some(env.lease) else None));
      case WarmPermit(n, lease) =>
        t := if s.permits > 0 then Launching(Count(Warmer(n), lease)) else Done;
      case WarmPush(n, _) =>
        t := Warm(WarmNext(n + 1));
    }
  }

  lemma QueueMoves(c: Config, s: State, i: nat, env: Env, s': State) returns (t: Task)
    requires i < |s.tasks| && s.tasks[i].Acq? && (s.tasks[i].acq.Fast? || s.tasks[i].acq.Poll?)
    requires AcquireStep(c, s, i, s.tasks[i].acq, env) == Some(s')
    ensures s'.tasks == s.tasks[i := t] + [] && SweepMoves(s, s', i, t) && IdleMoves(s, s', i, t)
  {
    hide FastPop, PutBack, GetQueue;
    if s' == s {
      t := s.tasks[i];
      assert s.tasks == s.tasks[i := t] + [];
    } else {
      t := s'.tasks[i];
    }
  }

  lemma WaitMoves(c: Config, s: State, i: nat, env: Env, s': State) returns (t: Task)
    requires i < |s.tasks| && s.tasks[i].Acq?
    requires s.tasks[i].acq.Start? || s.tasks[i].acq.Wait? || s.tasks[i].acq.Bind?
    requires AcquireStep(c, s, i, s.tasks[i].acq, env) == Some(s')
    ensures s'.tasks == s.tasks[i := t] + [] && SweepMoves(s, s', i, t) && IdleMoves(s, s', i, t)
  {
    t := s'.tasks[i];
  }

  lemma DisposeMoves(c: Config, s: State, i: nat, env: Env, s': State) returns (t: Task, spawned: seq<Task>)
    requires i < |s.tasks| && s.tasks[i].Acq? && (s.tasks[i].acq.Dispose? || s.tasks[i].acq.PollDispose?)
    requires AcquireStep(c, s, i, s.tasks[i].acq, env) == Some(s')
    ensures FewSpawned(spawned) && s'.tasks == s.tasks[i := t] + spawned
    ensures SweepMoves(s, s', i, t) && IdleMoves(s, s', i, t)
  {
    hide Depart, Drop;
    var pc := s.tasks[i].acq;
    t, spawned := s'.tasks[i], [];
    if pc.Dispose? && pc.rest != [] {
      spawned := [Disposer(Closing(pc.rest[0].inst))];
    } else if pc.PollDispose? {
      spawned := [Disposer(Closing(pc.cargo.inst))];
    }
  }

  lemma AcquireMoves(c: Config, s: State, i: nat, env: Env, s': State) returns (t: Task, spawned: seq<Task>)
    requires i < |s.tasks| && s.tasks[i].Acq? && AcquireStep(c, s, i, s.tasks[i].acq, env) == Some(s')
    ensures FewSpawned(spawned) && s'.tasks == s.tasks[i := t] + spawned
    ensures SweepMoves(s, s', i, t) && IdleMoves(s, s', i, t)
  {
    hide AcquireStep;
    var pc := s.tasks[i].acq;
    spawned := [];
    if pc.Fast? || pc.Poll? {
      t := QueueMoves(c, s, i, env, s');
    } else if pc.Dispose? || pc.PollDispose? {
      t, spawned := DisposeMoves(c, s, i, env, s');
    } else {
      t := WaitMoves(c, s, i, env, s');
    }
  }

  lemma LaunchMoves(s: State, i: nat, env: Env, s': State) returns (t: Task)
    requires i < |s.tasks| && s.tasks[i].Launching? && LaunchStep(s, i, s.tasks[i].launch, env) == Some(s')
    ensures s'.tasks == s.tasks[i := t] + [] && SweepMoves(s, s', i, t) && IdleMoves(s, s', i, t)
  {
    hide LaunchStep;
    LaunchFrame(s, i, env, s');
    t := LaunchTo(s.tasks[i].launch, env);
  }

  lemma HandleMoves(c: Config, s: State, i: nat, env: Env, s': State) returns (t: Task)
    requires i < |s.tasks| && s.tasks[i].Held? && s.tasks[i].held.Handle?
    requires ReleaseStep(c, s, i, s.tasks[i].held, env) == Some(s')
    ensures s'.tasks == s.tasks[i := t] + [] && SweepMoves(s, s', i, t) && IdleMoves(s, s', i, t)
  {
    hide Depart;
    var cargo := s.tasks[i].held.cargo;
    t := if env.Health? then Held(Handle(s.tasks[i].held.ctx, cargo.(inst := cargo.inst.(healthy := env.ok))))
         else if cargo.inst.healthy then Held(RelLock(s.tasks[i].held.ctx, cargo, env == DropHandle))
         else Held(RelDispose(s.tasks[i].held.ctx, cargo));
  }

  lemma ReleaseMoves(c: Config, s: State, i: nat, env: Env, s': State) returns (t: Task, spawned: seq<Task>)
    requires i < |s.tasks| && s.tasks[i].Held? && ReleaseStep(c, s, i, s.tasks[i].held, env) == Some(s')
    ensures FewSpawned(spawned) && s'.tasks == s.tasks[i := t] + spawned
    ensures SweepMoves(s, s', i, t) && IdleMoves(s, s', i, t)
  {
    hide Depart, Drop, Mark, TotalIdle;
    var pc := s.tasks[i].held;
    t, spawned := Done, [];
    if pc.Handle? {
      t := HandleMoves(c, s, i, env, s');
    } else if pc.RelLock? {
      t := if TotalIdle(s) < c.max then Done else Held(RelDispose(pc.ctx, pc.cargo));
    } else if pc.RelDispose? {
      t, spawned := Held(RelPermit(pc.cargo.lease)), [Disposer(Closing(pc.cargo.inst))];
    }
  }

  lemma DisposerMoves(s: State, i: nat) returns (t: Task)
    requires i < |s.tasks| && s.tasks[i].Disposer?
    ensures var s' := DisposerStep(s, i, s.tasks[i].disposer);
            s'.tasks == s.tasks[i := t] + [] && SweepMoves(s, s', i, t) && IdleMoves(s, s', i, t)
  {
    t := DisposerStep(s, i, s.tasks[i].disposer).tasks[i];
  }

  lemma ContextMoves(s: State, i: nat) returns (t: Task, spawned: seq<Task>)
    requires i < |s.tasks| && s.tasks[i].Releasing? && !(s.locked && s.tasks[i].context.CtxLock?)
    ensures var s' := ContextStep(s, i, s.tasks[i].context);
            && FewSpawned(spawned) && s'.tasks == s.tasks[i := t] + spawned
            && SweepMoves(s, s', i, t) && IdleMoves(s, s', i, t)
  {
    var pc := s.tasks[i].context;
    t := ContextStep(s, i, pc).tasks[i];
    spawned := if pc.CtxDrain? && pc.entries != [] then [Disposer(Closing(pc.entries[0].cargo.inst))] else [];
  }

  lemma EvictMoves(s: State, i: nat) returns (t: Task, spawned: seq<Task>)
    requires i < |s.tasks| && s.tasks[i].Sweeping?
    ensures var s' := EvictStep(s, i, s.tasks[i].sweep);
            && FewSpawned(spawned) && s'.tasks == s.tasks[i := t] + spawned
            && SweepMoves(s, s', i, t) && IdleMoves(s, s', i, t)
  {
    var pc := s.tasks[i].sweep;
    t := EvictStep(s, i, pc).tasks[i];
    spawned := if pc.Evict? && pc.entries != [] then [Disposer(EvictClosing(pc.entries[0].cargo.inst))] else [];
  }

  lemma RunShape(c: Config, s: State, i: nat, env: Env, s': State) returns (t: Task, spawned: seq<Task>)
    requires i < |s.tasks| && RunStep(c, s, i, env) == Some(s')
    ensures FewSpawned(spawned) && s'.tasks == s.tasks[i := t] + spawned
    ensures SweepMoves(s, s', i, t) && IdleMoves(s, s', i, t)
  {
    hide SweepMoves, IdleMoves, WarmStep, AcquireStep, LaunchStep, ReleaseStep, DisposerStep, ContextStep, EvictStep;
    t, spawned := Done, [];
    match s.tasks[i] {
      case Done =>
      case Warm(pc) => t := WarmMoves(c, s, i, env, s');
      case Acq(pc) => t, spawned := AcquireMoves(c, s, i, env, s');
      case Launching(pc) => t := LaunchMoves(s, i, env, s');
      case Held(pc) => t, spawned := ReleaseMoves(c, s, i, env, s');
      case Disposer(_) => t := DisposerMoves(s, i);
      case Releasing(_) => t, spawned := ContextMoves(s, i);
      case Sweeping(_) => t, spawned := EvictMoves(s, i);
    }
  }

  lemma CancelLoses(s: State, i: nat, s': State)
    requires i < |s.tasks| && CancelStep(s, i) == Some(s')
    ensures s' == s.(tasks := s.tasks[i := Done] + [], abandoned := s'.abandoned, leases := s'.leases, gone := s'.gone)
    ensures s'.abandoned >= s.abandoned + OneIf(AwaitsLock(s.tasks[i]))
  {
    hide Depart, Drop;
  }

  lemma CancelShape(s: State, i: nat, s': State)
    requires i < |s.tasks| && CancelStep(s, i) == Some(s')
    ensures s'.tasks == s.tasks[i := Done] + [] && SweepMoves(s, s', i, Done) && IdleMoves(s, s', i, Done)
    ensures s'.shared == s.shared && s'.scoped == s.scoped && s'.evicted == s.evicted
  {
    hide Depart, Drop;
    CancelLoses(s, i, s');
    assert !s.tasks[i].Sweeping? && !Warming(s.tasks[i]);
    hide CancelStep;
  }

  lemma RunMoves(c: Config, s: State, i: nat, env: Env, s': State)
    requires i < |s.tasks| && RunStep(c, s, i, env) == Some(s')
    ensures Moves(s, s', i)
  {
    hide RunStep, Moves, SweepMoves, IdleMoves;
    var t, spawned := RunShape(c, s, i, env, s');
    ShapeMoves(s, s', i, t, spawned);
  }

  lemma CancelMoves(s: State, i: nat, s': State)
    requires i < |s.tasks| && CancelStep(s, i) == Some(s')
    ensures Moves(s, s', i)
  {
    hide CancelStep, SweepMoves, IdleMoves;
    CancelShape(s, i, s');
  }

  lemma NextKeepsOneSweep(c: Config, s: State, ev: Event, s': State)
    requires OneSweep(s) && Next(c, s, ev) == Some(s')
    ensures OneSweep(s')
  {
    hide RunStep, CancelStep;
    if ev.Sweep? {
      assert Alone(s', |s.tasks|);
    } else if ev.Run? || ev.Cancel? {
      if ev.Run? {
        RunMoves(c, s, ev.i, ev.env, s');
      } else {
        CancelMoves(s, ev.i, s');
      }
      if s.locked {
        var j :| Alone(s, j);
        if s'.locked {
          assert Alone(s', j);
        }
      }
    } else if s.locked {
      var j :| Alone(s, j);
      assert Alone(s', j);
    }
  }

  /** In every reachable state at most one sweep runs, and one does iff the lock is held by it. */
  lemma {:induction false} SweepsExclude(c: Config, events: seq<Event>, s: State)
    requires Exec(c, Init(c), events) == Some(s)
    ensures OneSweep(s)
  {
    hide Next;
    if events != [] {
      var before := Exec(c, Init(c), events[..|events| - 1]).value;
      SweepsExclude(c, events[..|events| - 1], before);
      NextKeepsOneSweep(c, before, events[|events| - 1], s);
    }
  }

  /** While a sweep runs, what it has evicted and what it will evict add up. */
  lemma NextKeepsSweep(c: Config, s: State, ev: Event, s': State, j: nat)
    requires j < |s.tasks| && Next(c, s, ev) == Some(s') && (Alone(s, j) || !s.tasks[j].Sweeping?)
    ensures j < |s'.tasks| && (s'.tasks[j].Sweeping? ==> s.tasks[j].Sweeping? && Alone(s', j))
    ensures s'.tasks[j].Sweeping? ==> s'.evicted + Pending(s'.tasks[j]) == s.evicted + Pending(s.tasks[j])
  {
    hide RunStep, CancelStep;
    if ev.Run? {
      RunMoves(c, s, ev.i, ev.env, s');
    } else if ev.Cancel? {
      CancelMoves(s, ev.i, s');
    }
  }

  lemma {:induction false} SweepGoesOn(c: Config, s: State, events: seq<Event>, s': State, j: nat)
    requires Alone(s, j) && Exec(c, s, events) == Some(s')
    ensures j < |s'.tasks|
    ensures s'.tasks[j].Sweeping? ==> Alone(s', j)
    ensures s'.tasks[j].Sweeping? ==> s'.evicted + Pending(s'.tasks[j]) == s.evicted + Pending(s.tasks[j])
  {
    assert j < |s.tasks|;
    hide Next, Alone, Pending;
    if events != [] {
      var before := Exec(c, s, events[..|events| - 1]).value;
      SweepGoesOn(c, s, events[..|events| - 1], before, j);
      NextKeepsSweep(c, before, events[|events| - 1], s', j);
    }
  }

  /**
   A sweep among other activities. It evicts exactly what it decided on, and when it is through, the
   counter has moved by that, by what the others have counted and by what they have given back.
   */
  lemma SweepLedger(c: Config, s: State, order: seq<Context>, s1: State, events: seq<Event>, s2: State)
    requires Reachable(c, s) && Next(c, s, Sweep(order)) == Some(s1) && Exec(c, s1, events) == Some(s2)
    requires |s.tasks| < |s2.tasks| && s2.tasks[|s.tasks|] == Sweeping(Evict([]))
    ensures s2.evicted == s.evicted + |SweptOut(c, s, order)|
    ensures s2.active == s.active - |SweptOut(c, s, order)|
                         - Occurrences(c, s1, events, GivingBack) + Occurrences(c, s1, events, Counting)
  {
    hide SweptOut, ScopedIdle, Exec, Occurrences;
    var j := |s.tasks|;
    var start :| Exec(c, Init(c), start) == Some(s);
    SweepsExclude(c, start, s);
    assert Alone(s1, j);
    SweepGoesOn(c, s1, events, s2, j);
    ReachableInv(c, s);
    NextKeeps(c, s, Sweep(order), s1);
    ActiveLedger(c, s1, events, s2);
  }

  // ---------------------------------------------------------------- one task warms the pool up

  /** The first task is the warm-up until it is over, and no other task is. */
  predicate FirstWarms(s: State) {
    && |s.tasks| > 0 && (s.tasks[0] == Done || Warming(s.tasks[0]))
    && forall k :: 1 <= k < |s.tasks| ==> !Warming(s.tasks[k])
  }

  lemma NextKeepsFirstWarms(c: Config, s: State, ev: Event, s': State)
    requires FirstWarms(s) && Next(c, s, ev) == Some(s')
    ensures FirstWarms(s')
  {
    hide RunStep, CancelStep;
    DoneIsOver(c, s, ev);
    if ev.Run? {
      RunMoves(c, s, ev.i, ev.env, s');
    } else if ev.Cancel? {
      CancelMoves(s, ev.i, s');
    }
  }

  lemma DoneIsOver(c: Config, s: State, ev: Event)
    requires Next(c, s, ev).Some?
    ensures (ev.Run? || ev.Cancel?) ==> s.tasks[ev.i] != Done
  {
  }

  lemma {:induction false} OnlyFirstWarms(c: Config, events: seq<Event>, s: State)
    requires Exec(c, Init(c), events) == Some(s)
    ensures FirstWarms(s)
  {
    hide Next, FirstWarms;
    if events != [] {
      var before := Exec(c, Init(c), events[..|events| - 1]).value;
      OnlyFirstWarms(c, events[..|events| - 1], before);
      NextKeepsFirstWarms(c, before, events[|events| - 1], s);
    } else {
      FirstIsWarming(c);
    }
  }

  lemma FirstIsWarming(c: Config)
    ensures FirstWarms(Init(c))
  {
  }

  // ---------------------------------------------------------------- what marks a lease

  /** A lease is marked iff an entry with it is cleared, and is neither forgotten nor unmarked. */
  ghost predicate MarksKept(s: State, s': State, l: nat, clears: bool) {
    && (l in s.leases ==> l in s'.leases && s'.leases[l].marks == s.leases[l].marks + OneIf(clears))
    && (l !in s.leases && l in s'.leases ==> s'.leases[l].marks == 0)
  }

  lemma WarmMarks(c: Config, s: State, i: nat, pc: WarmPc, env: Env, s': State, l: nat)
    requires i < |s.tasks| && WarmStep(c, s, i, pc, env) == Some(s')
    ensures MarksKept(s, s', l, false)
  {
  }

  lemma AcquireMarks(c: Config, s: State, i: nat, pc: AcqPc, env: Env, s': State, l: nat)
    requires i < |s.tasks| && AcquireStep(c, s, i, pc, env) == Some(s')
    ensures MarksKept(s, s', l, false)
  {
    hide FastPop;
  }

  lemma LaunchMarks(s: State, i: nat, pc: LaunchPc, env: Env, s': State, l: nat)
    requires i < |s.tasks| && LaunchStep(s, i, pc, env) == Some(s')
    ensures MarksKept(s, s', l, false)
  {
  }

  lemma ReleaseMarks(c: Config, s: State, i: nat, pc: HandlePc, env: Env, s': State, l: nat)
    requires i < |s.tasks| && ReleaseStep(c, s, i, pc, env) == Some(s')
    requires pc.RelLock? ==> TotalIdle(s) < c.max
    ensures MarksKept(s, s', l, false)
  {
  }

  lemma DisposerMarks(s: State, i: nat, pc: DisposerPc, l: nat)
    requires i < |s.tasks|
    ensures MarksKept(s, DisposerStep(s, i, pc), l, false)
  {
  }

  lemma ContextMarks(s: State, i: nat, pc: ContextPc, l: nat)
    requires i < |s.tasks|
    ensures MarksKept(s, ContextStep(s, i, pc), l,
                      pc.CtxDrain? && pc.entries != [] && pc.entries[0].cargo.lease == Some(l))
  {
  }

  lemma EvictMarks(s: State, i: nat, pc: SweepPc, l: nat)
    requires i < |s.tasks|
    ensures MarksKept(s, EvictStep(s, i, pc), l, pc.Evict? && pc.entries != [] && pc.entries[0].cargo.lease == Some(l))
  {
  }

  lemma OtherMarks(s: State, i: nat, env: Env, l: nat)
    requires i < |s.tasks|
    ensures var clears := Happens(Clearing(l), s, Run(i, env));
            && (s.tasks[i].Disposer? ==> MarksKept(s, DisposerStep(s, i, s.tasks[i].disposer), l, clears))
            && (s.tasks[i].Releasing? ==> MarksKept(s, ContextStep(s, i, s.tasks[i].context), l, clears))
            && (s.tasks[i].Sweeping? ==> MarksKept(s, EvictStep(s, i, s.tasks[i].sweep), l, clears))
  {
    match s.tasks[i] {
      case Disposer(pc) => DisposerMarks(s, i, pc, l);
      case Releasing(pc) => ContextMarks(s, i, pc, l);
      case Sweeping(pc) => EvictMarks(s, i, pc, l);
      case _ =>
    }
    hide MarksKept, DisposerStep, ContextStep, EvictStep;
  }

  lemma RunMarks(c: Config, s: State, i: nat, env: Env, s': State, l: nat)
    requires Inv(c, s) && i < |s.tasks| && RunStep(c, s, i, env) == Some(s')
    ensures MarksKept(s, s', l, Happens(Clearing(l), s, Run(i, env)))
  {
    hide Inv, MarksKept, TotalIdle, WarmStep, AcquireStep, LaunchStep, ReleaseStep, DisposerStep, ContextStep;
    hide EvictStep;
    match s.tasks[i] {
      case Done =>
      case Warm(pc) => WarmMarks(c, s, i, pc, env, s', l);
      case Acq(pc) => AcquireMarks(c, s, i, pc, env, s', l);
      case Launching(pc) => LaunchMarks(s, i, pc, env, s', l);
      case Held(pc) =>
        if pc.RelLock? {
          RoomForHeld(c, s, i);
        }
        ReleaseMarks(c, s, i, pc, env, s', l);
      case _ => OtherMarks(s, i, env, l);
    }
  }

  /** Only a lease that has been bound is ever cleared. */
  lemma ClearedIsBound(c: Config, s: State, ev: Event, l: nat)
    requires Inv(c, s) && Happens(Clearing(l), s, ev)
    ensures l in s.leases
  {
    var t := s.tasks[ev.i];
    var entries := if t.Sweeping? then t.sweep.entries else t.context.entries;
    EntryWithin(Serving(l), entries, 0);
    TaskWithin(Serving(l), s, ev.i);
    assert LawsAt(c, s, 0, l);
  }

  lemma NextMarks(c: Config, s: State, ev: Event, s': State, l: nat)
    requires Inv(c, s) && Next(c, s, ev) == Some(s')
    ensures MarksKept(s, s', l, Happens(Clearing(l), s, ev))
  {
    hide Inv, RunStep, CancelStep, SweepStep, MarksKept;
    if ev.Run? {
      RunMarks(c, s, ev.i, ev.env, s', l);
    } else if ev.Cancel? {
      CancelMarks(s, ev.i, s', l);
    } else {
      SameMarks(c, s, ev, s', l);
    }
  }

  lemma CancelMarks(s: State, i: nat, s': State, l: nat)
    requires i < |s.tasks| && CancelStep(s, i) == Some(s')
    ensures MarksKept(s, s', l, false)
  {
  }

  lemma SameMarks(c: Config, s: State, ev: Event, s': State, l: nat)
    requires Next(c, s, ev) == Some(s') && !ev.Run? && !ev.Cancel?
    ensures MarksKept(s, s', l, false)
  {
    hide SweptOut, SweepQueue, SweepScoped, WithoutEmpty, ScopedIdle;
  }

  /**
   Over every run, a bound lease is marked successful exactly as often as a sweep or
   `release_context` took an entry with it out of service, which is at most once.
   */
  lemma MarkedIffCleared(c: Config, events: seq<Event>, s: State, l: nat)
    requires Exec(c, Init(c), events) == Some(s)
    ensures if l in s.leases then s.leases[l].marks == Occurrences(c, Init(c), events, Clearing(l)) <= 1
            else Occurrences(c, Init(c), events, Clearing(l)) == 0
  {
    hide Exec;
    MarksAlong(c, events, s, l);
    if l in s.leases {
      LeaseFate(c, s, l);
    }
  }

  lemma {:induction false} MarksAlong(c: Config, events: seq<Event>, s: State, l: nat)
    requires Exec(c, Init(c), events) == Some(s)
    ensures Occurrences(c, Init(c), events, Clearing(l)) == if l in s.leases then s.leases[l].marks else 0
  {
    hide Inv, Next, Happens;
    if events != [] {
      var p, ev := events[..|events| - 1], events[|events| - 1];
      var before := Exec(c, Init(c), p).value;
      MarksAlong(c, p, before, l);
      InitKeeps(c);
      ExecKeeps(c, Init(c), p, before);
      NextMarks(c, before, ev, s, l);
      if Happens(Clearing(l), before, ev) {
        ClearedIsBound(c, before, ev, l);
      }
    }
  }
}
