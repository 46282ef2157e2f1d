/**
 What holds of the browser pool in every state that some interleaving of its tasks can reach.
 */
module PoolTheorems {
  import opened Options
  import opened PoolModel
  import opened PoolMeasure
  import opened PoolInvariant
  import opened PoolSteps
  import opened PoolSweep

  // ---------------------------------------------------------------- the invariant holds on every run

  lemma RunKeeps(c: Config, s: State, i: nat, env: Env, s': State)
    requires Inv(c, s) && i < |s.tasks| && RunStep(c, s, i, env) == Some(s')
    ensures Inv(c, s')
  {
    hide Inv, WarmStep, AcquireStep, LaunchStep, ReleaseStep, DisposerStep, ContextStep, EvictStep;
    match s.tasks[i] {
      case Done =>
      case Warm(pc) =>
        if pc.WarmNext? {
          WarmNextKeeps(c, s, i, env, s');
        } else if pc.WarmPermit? {
          WarmPermitKeeps(c, s, i, env, s');
        } else {
          WarmPushKeeps(c, s, i, env, s');
        }
      case Acq(pc) => AcqKeeps(c, s, i, env, s');
      case Launching(_) => LaunchKeeps(c, s, i, env, s');
      case Held(pc) =>
        if pc.RelLock? {
          RelLockKeeps(c, s, i, env, s');
        } else {
          ReleaseKeeps(c, s, i, env, s');
        }
      case Disposer(_) => DisposerKeeps(c, s, i);
      case Releasing(pc) =>
        if pc.CtxLock? {
          CtxLockKeeps(c, s, i);
        } else {
          ContextKeeps(c, s, i);
        }
      case Sweeping(_) => EvictKeeps(c, s, i);
    }
  }

  lemma AcqKeeps(c: Config, s: State, i: nat, env: Env, s': State)
    requires Inv(c, s) && i < |s.tasks| && s.tasks[i].Acq?
    requires AcquireStep(c, s, i, s.tasks[i].acq, env) == Some(s')
    ensures Inv(c, s')
  {
    hide Laws, LawsAt, AcquireStep;
    var pc := s.tasks[i].acq;
    assert TaskOk(s.born, s.tasks[i]);
    if pc.Fast? {
      FastKeeps(c, s, i, env, s');
    } else if pc.Poll? {
      PollKeeps(c, s, i, env, s');
    } else if pc.Bind? {
      BindKeeps(c, s, i, env, s');
    } else if pc.Dispose? {
      HandOutKeeps(c, s, i, env, s');
    } else {
      assert !pc.PollDispose?;
      WaitKeeps(c, s, i, env, s');
    }
  }

  /** A task that holds nothing joins the pool. */
  lemma JoinKeeps(c: Config, s: State, t: Task, s': State)
    requires Inv(c, s) && s' == s.(tasks := s.tasks + [t])
    requires (t.Acq? && t.acq.Start?) || (t.Releasing? && t.context.CtxLock?)
    ensures Inv(c, s')
  {
    forall w ensures Total(w, s') == Total(w, s) {
      TasksAppend(w, s.tasks, [t]);
      TasksOne(w, t);
    }
    forall id: nat, l: nat ensures LawsAt(c, s', id, l) {
      assert LawsAt(c, s, id, l);
    }
    assert TasksOk(s') by {
      forall k | 0 <= k < |s'.tasks| ensures TaskOk(s'.born, s'.tasks[k]) {
        if k < |s.tasks| { assert TaskOk(s.born, s.tasks[k]); }
      }
    }
    QueuesKeep(s, s');
  }

  lemma TickKeeps(c: Config, s: State, now: nat)
    requires Inv(c, s) && now >= s.now
    ensures Inv(c, s.(now := now))
  {
    var s' := s.(now := now);
    forall id: nat, l: nat ensures LawsAt(c, s', id, l) {
      assert LawsAt(c, s, id, l);
      assert Totals(s', id, l) == Totals(s, id, l);
    }
    QueuesKeep(s, s');
    assert TasksOk(s');
  }

  lemma NextKeeps(c: Config, s: State, ev: Event, s': State)
    requires Inv(c, s) && Next(c, s, ev) == Some(s')
    ensures Inv(c, s')
  {
    hide Inv, RunStep, SweepStep, CancelStep;
    match ev {
      case Tick(now) => TickKeeps(c, s, now);
      case Sweep(order) => SweepKeeps(c, s, order);
      case NewAcquire(ctx) => JoinKeeps(c, s, Acq(Start(ctx)), s');
      case NewReleaseContext(id) => JoinKeeps(c, s, Releasing(CtxLock(id)), s');
      case Run(i, env) => RunKeeps(c, s, i, env, s');
      case Cancel(i) => CancelKeeps(c, s, i, s');
    }
  }

  /** The invariant holds after every interleaving that starts where it holds. */
  lemma {:induction false} ExecKeeps(c: Config, s: State, events: seq<Event>, s': State)
    requires Inv(c, s) && Exec(c, s, events) == Some(s')
    ensures Inv(c, s')
  {
    hide Inv, Next;
    if events != [] {
      var before := Exec(c, s, events[..|events| - 1]).value;
      ExecKeeps(c, s, events[..|events| - 1], before);
      NextKeeps(c, before, events[|events| - 1], s');
    }
  }

  lemma ReachableInv(c: Config, s: State)
    requires Reachable(c, s)
    ensures Inv(c, s)
  {
    hide Inv;
    var events :| Exec(c, Init(c), events) == Some(s);
    InitKeeps(c);
    ExecKeeps(c, Init(c), events, s);
  }

  // ---------------------------------------------------------------- capacity

  predicate IsHandle(t: Task) {
    t.Held? && t.held.Handle?
  }

  function Handles(ts: seq<Task>): nat {
    if ts == [] then 0 else Handles(ts[..|ts| - 1]) + OneIf(IsHandle(ts[|ts| - 1]))
  }

  lemma {:induction false} HandlesAreSlots(ts: seq<Task>)
    ensures Handles(ts) <= TasksW(Slot, ts)
  {
    if ts != [] { HandlesAreSlots(ts[..|ts| - 1]); }
  }

  /**
   The exact capacity law. Idle browsers, browsers in callers' hands and free permits never add
   up to more than `max_size`, and every eviction and every abandoned launch or release takes
   one unit away for good.
   */
  lemma Capacity(c: Config, s: State)
    requires Reachable(c, s)
    ensures s.permits + TotalIdle(s) + TasksW(Slot, s.tasks) + s.evicted + s.abandoned == c.max
    ensures TotalIdle(s) + Handles(s.tasks) <= c.max - s.permits - s.evicted - s.abandoned
  {
    ReachableInv(c, s);
    assert LawsAt(c, s, 0, 0);
    EntriesSlots(s.shared);
    ScopedSlots(s.scoped);
    HandlesAreSlots(s.tasks);
  }

  /** No `fetch_sub` on `active_count` ever wraps: whoever is about to subtract is counted. */
  lemma ActiveNeverWraps(c: Config, s: State, i: nat)
    requires Reachable(c, s) && i < |s.tasks|
    requires || s.tasks[i] == Disposer(Closed)
             || (s.tasks[i].Launching? && s.tasks[i].launch.Uncount?)
             || (s.tasks[i].Sweeping? && s.tasks[i].sweep.EvictCount?)
    ensures s.active > 0 && FetchSub(s.active) == s.active - 1
  {
    ReachableInv(c, s);
    assert LawsAt(c, s, 0, 0);
    TaskWithin(Counted, s, i);
  }

  /** A task that owes neither a permit to the semaphore nor a decrement to the counter alone. */
  predicate Settled(t: Task) {
    match t
    case Launching(pc) => !pc.Count? && !pc.Unpermit?
    case Held(pc) => !pc.RelPermit?
    case Disposer(pc) => pc.EvictClosing?
    case Releasing(pc) => !pc.CtxPermit?
    case _ => true
  }

  lemma {:induction false} SettledWeigh(ts: seq<Task>)
    requires forall k :: 0 <= k < |ts| ==> Settled(ts[k])
    ensures TasksW(Slot, ts) == TasksW(Counted, ts)
  {
    if ts != [] {
      SettledWeigh(ts[..|ts| - 1]);
      var t := ts[|ts| - 1];
      assert Settled(t);
      SettledTask(t);
    }
  }

  lemma SettledTask(t: Task)
    requires Settled(t)
    ensures TaskW(Slot, t) == TaskW(Counted, t)
  {
    if t.Acq? && t.acq.Dispose? {
      CargosSlots(t.acq.rest);
    } else if t.Releasing? && t.context.CtxDrain? {
      EntriesSlots(t.context.entries);
    } else if t.Sweeping? {
      EntriesSlots(t.sweep.entries);
    }
  }

  lemma {:induction false} CargosSlots(q: seq<Cargo>)
    ensures CargosW(Slot, q) == |q| && CargosW(Counted, q) == |q|
  {
    if q != [] { CargosSlots(q[..|q| - 1]); }
  }

  lemma {:induction false} ScopedCounted(m: map<Context, seq<Entry>>)
    ensures ScopedW(Counted, m) == ScopedIdle(m)
    decreases |m.Keys|
  {
    if m.Keys != {} {
      var k :| k in m.Keys && ScopedIdle(m) == |m[k]| + ScopedIdle(m - {k});
      assert (m - {k}).Keys == m.Keys - {k};
      ScopedCounted(m - {k});
      ScopedSplit(Counted, m, k);
      EntriesSlots(m[k]);
    }
  }

  /**
   When every task is settled, the permits left are what `max_size` leaves after the active
   browsers and all evictions so far: a launch can go ahead iff `active + evicted < max_size`.
   The code goes ahead, and blocks, on the weaker test `active < max_size`.
   */
  lemma LaunchCapacity(c: Config, s: State)
    requires Reachable(c, s) && forall k :: 0 <= k < |s.tasks| ==> Settled(s.tasks[k])
    ensures s.permits + s.active + s.evicted == c.max
    ensures s.permits > 0 <==> s.active + s.evicted < c.max
  {
    ReachableInv(c, s);
    assert LawsAt(c, s, 0, 0);
    SettledWeigh(s.tasks);
    EntriesSlots(s.shared);
    ScopedSlots(s.scoped);
    ScopedCounted(s.scoped);
  }

  // ---------------------------------------------------------------- lost capacity is lost for good

  /** No task step gives lost capacity back, and the origin of an instance is never rewritten. */
  ghost predicate RegainsNone(s: State, s': State) {
    s'.evicted >= s.evicted && s'.abandoned == s.abandoned && Grows(s.born, s'.born)
  }

  lemma WarmRegainsNone(c: Config, s: State, i: nat, pc: WarmPc, env: Env, s': State)
    requires i < |s.tasks| && WarmStep(c, s, i, pc, env) == Some(s')
    ensures RegainsNone(s, s')
  {
  }

  lemma AcquireRegainsNone(c: Config, s: State, i: nat, pc: AcqPc, env: Env, s': State)
    requires i < |s.tasks| && AcquireStep(c, s, i, pc, env) == Some(s')
    ensures RegainsNone(s, s')
  {
    hide FastPop;
  }

  lemma LaunchRegainsNone(c: Config, s: State, i: nat, pc: LaunchPc, env: Env, s': State)
    requires i < |s.tasks| && LaunchStep(s, i, pc, env) == Some(s')
    ensures RegainsNone(s, s')
  {
  }

  lemma ReleaseRegainsNone(c: Config, s: State, i: nat, pc: HandlePc, env: Env, s': State)
    requires i < |s.tasks| && ReleaseStep(c, s, i, pc, env) == Some(s')
    ensures RegainsNone(s, s')
  {
  }

  lemma DisposerRegainsNone(c: Config, s: State, i: nat, pc: DisposerPc, env: Env, s': State)
    requires i < |s.tasks| && Some(DisposerStep(s, i, pc)) == Some(s')
    ensures RegainsNone(s, s')
  {
  }

  lemma ContextRegainsNone(c: Config, s: State, i: nat, pc: ContextPc, env: Env, s': State)
    requires i < |s.tasks| && Some(ContextStep(s, i, pc)) == Some(s')
    ensures RegainsNone(s, s')
  {
  }

  lemma EvictRegainsNone(c: Config, s: State, i: nat, pc: SweepPc, env: Env, s': State)
    requires i < |s.tasks| && Some(EvictStep(s, i, pc)) == Some(s')
    ensures RegainsNone(s, s')
  {
  }

  lemma RunRegainsNone(c: Config, s: State, i: nat, env: Env, s': State)
    requires i < |s.tasks| && RunStep(c, s, i, env) == Some(s')
    ensures RegainsNone(s, s')
  {
    hide RegainsNone, WarmStep, AcquireStep, LaunchStep, ReleaseStep, DisposerStep, ContextStep, EvictStep;
    match s.tasks[i] {
      case Done =>
      case Warm(pc) => WarmRegainsNone(c, s, i, pc, env, s');
      case Acq(pc) => AcquireRegainsNone(c, s, i, pc, env, s');
      case Launching(pc) => LaunchRegainsNone(c, s, i, pc, env, s');
      case Held(pc) => ReleaseRegainsNone(c, s, i, pc, env, s');
      case Disposer(pc) => DisposerRegainsNone(c, s, i, pc, env, s');
      case Releasing(pc) => ContextRegainsNone(c, s, i, pc, env, s');
      case Sweeping(pc) => EvictRegainsNone(c, s, i, pc, env, s');
    }
  }

  lemma NextLosesMore(c: Config, s: State, ev: Event, s': State)
    requires Next(c, s, ev) == Some(s')
    ensures s'.evicted >= s.evicted && s'.abandoned >= s.abandoned
    ensures Grows(s.born, s'.born)
  {
    hide RunStep;
    if ev.Run? {
      RunRegainsNone(c, s, ev.i, ev.env, s');
    }
  }

  lemma {:induction false} ExecLosesMore(c: Config, s: State, events: seq<Event>, s': State)
    requires Exec(c, s, events) == Some(s')
    ensures s'.evicted >= s.evicted && s'.abandoned >= s.abandoned
    ensures Grows(s.born, s'.born)
  {
    hide Next;
    if events != [] {
      var before := Exec(c, s, events[..|events| - 1]).value;
      ExecLosesMore(c, s, events[..|events| - 1], before);
      NextLosesMore(c, before, events[|events| - 1], s');
    }
  }

  /**
   Once evictions and abandoned calls have used up `max_size`, the pool is dead: whatever
   happens afterwards, there is no permit, no idle browser and no handle.
   */
  lemma DeadPoolStaysDead(c: Config, s: State, events: seq<Event>, s': State)
    requires Reachable(c, s) && s.evicted + s.abandoned == c.max && Exec(c, s, events) == Some(s')
    ensures s'.permits == 0 && TotalIdle(s') == 0
    ensures forall i :: 0 <= i < |s'.tasks| ==> !IsHandle(s'.tasks[i])
  {
    ReachableInv(c, s);
    ExecKeeps(c, s, events, s');
    ExecLosesMore(c, s, events, s');
    assert LawsAt(c, s', 0, 0);
    EntriesSlots(s'.shared);
    ScopedSlots(s'.scoped);
    forall i | 0 <= i < |s'.tasks| ensures !IsHandle(s'.tasks[i]) {
      TaskWithin(Slot, s', i);
    }
  }

  // ---------------------------------------------------------------- idle browsers

  /** Every idle browser is healthy, and no task is ever about to throw one out. */
  lemma IdleIsHealthy(c: Config, s: State, ctx: Option<Context>)
    requires Reachable(c, s)
    ensures forall k :: 0 <= k < |GetQueue(s, ctx)| ==> GetQueue(s, ctx)[k].cargo.inst.healthy
    ensures forall i :: 0 <= i < |s.tasks| && s.tasks[i].Acq? ==>
              !s.tasks[i].acq.PollDispose? && (s.tasks[i].acq.Dispose? ==> s.tasks[i].acq.rest == [])
  {
    ReachableInv(c, s);
    QueueIsOk(c, s, ctx);
    forall i | 0 <= i < |s.tasks| && s.tasks[i].Acq?
      ensures !s.tasks[i].acq.PollDispose? && (s.tasks[i].acq.Dispose? ==> s.tasks[i].acq.rest == [])
    {
      assert TaskOk(s.born, s.tasks[i]);
    }
  }

  /** The fast path waits for a sweep to end, takes exactly the head of a queue and leaves exactly its tail. */
  lemma AcquireTakesHead(c: Config, s: State, i: nat, env: Env)
    requires Reachable(c, s) && i < |s.tasks| && s.tasks[i].Acq? && s.tasks[i].acq.Fast?
    ensures var ctx, active, q := s.tasks[i].acq.ctx, s.tasks[i].acq.active, GetQueue(s, s.tasks[i].acq.ctx);
            var next := Next(c, s, Run(i, env));
            if s.locked then next.None?
            else
              && next.Some?
              && next.value.tasks
              == s.tasks[i := Acq(Dispose(ctx, active, if q == [] then None else Some(q[0].cargo), []))]
              && GetQueue(next.value, ctx) == (if q == [] then [] else q[1..])
              && (forall other :: other != ctx ==> GetQueue(next.value, other) == GetQueue(s, other))
  {
    hide FastPop, Inv, LawsAt;
    ReachableInv(c, s);
    var q := GetQueue(s, s.tasks[i].acq.ctx);
    QueueIsOk(c, s, s.tasks[i].acq.ctx);
    HealthyPop(q);
  }

  /** A healthy browser that is released goes to the back of its own queue: the pool is never full then. */
  lemma ReleaseAlwaysReturns(c: Config, s: State, i: nat, env: Env)
    requires Reachable(c, s) && i < |s.tasks| && s.tasks[i].Held? && s.tasks[i].held.RelLock?
    ensures var ctx, cargo := s.tasks[i].held.ctx, s.tasks[i].held.cargo;
            var next := Next(c, s, Run(i, env));
            if s.locked then next.None?
            else
              && next.Some?
              && next.value.tasks == s.tasks[i := Done]
              && GetQueue(next.value, ctx) == GetQueue(s, ctx) + [Entry(cargo, s.now)]
              && (forall other :: other != ctx ==> GetQueue(next.value, other) == GetQueue(s, other))
              && next.value.permits == s.permits && next.value.active == s.active && next.value.leases == s.leases
  {
    hide Inv, LawsAt, TotalIdle, Depart, Mark;
    ReachableInv(c, s);
    RoomForHeld(c, s, i);
    var ctx, cargo := s.tasks[i].held.ctx, s.tasks[i].held.cargo;
    if !s.locked {
      assert Next(c, s, Run(i, env))
          == Some(Become(SetQueue(s, ctx, GetQueue(s, ctx) + [Entry(cargo, s.now)]), i, Done, []));
      hide Next;
    }
  }

  /**
   The start of an eviction sweep: it decides on as many expired entries as the counter it reads
   exceeds `min_size` by, takes the oldest of each queue, and leaves no scoped queue empty.
   */
  lemma SweepEvictsOldest(c: Config, s: State, order: seq<Context>, s': State, ctx: Option<Context>)
    returns (out: seq<Entry>, gone: seq<Entry>)
    requires Reachable(c, s) && Next(c, s, Sweep(order)) == Some(s')
    ensures s'.tasks == s.tasks + [Sweeping(Evict(out))] && s'.locked && s'.active == s.active
    ensures |out| == Min(if s.active > c.min then s.active - c.min else 0, AllExpired(c, s, order))
    ensures TakesOldest(GetQueue(s, ctx), gone, GetQueue(s', ctx), s.now, c.idleTimeout)
    ensures forall w :: EntriesW(w, out) + EntriesW(w, s'.shared) + ScopedW(w, s'.scoped)
                        == EntriesW(w, s.shared) + ScopedW(w, s.scoped)
    ensures forall id :: id in s'.scoped ==> s'.scoped[id] != []
  {
    hide LawsAt, SweepQueue, SweepScoped, ScopedIdle, EntriesW, ScopedW, TasksW, TakesOldest, AllExpired;
    ReachableInv(c, s);
    out := SweptOut(c, s, order);
    SweepCount(c, s, order);
    gone := SweepOldest(c, s, order, ctx);
    forall w ensures EntriesW(w, out) + EntriesW(w, s'.shared) + ScopedW(w, s'.scoped)
                     == EntriesW(w, s.shared) + ScopedW(w, s.scoped)
    {
      SweepTotal(w, c, s, order);
      TasksAppend(w, s.tasks, [Sweeping(Evict(out))]);
      TasksOne(w, Sweeping(Evict(out)));
    }
    forall id | id in s'.scoped ensures s'.scoped[id] != [] {
      assert GetQueue(s', Some(id)) != [];
    }
  }

  // ---------------------------------------------------------------- isolation and ownership

  /** A browser is held or queued only for the context it was launched for, and under the lease it was launched with. */
  lemma Isolation(c: Config, s: State, i: nat, ctx: Option<Context>, k: nat)
    requires Reachable(c, s)
    ensures i < |s.tasks| && IsHandle(s.tasks[i]) ==>
              var h := s.tasks[i].held;
              h.cargo.inst.id in s.born && s.born[h.cargo.inst.id] == Origin(h.ctx, h.cargo.lease)
    ensures k < |GetQueue(s, ctx)| ==>
              var cargo := GetQueue(s, ctx)[k].cargo;
              cargo.inst.id in s.born && s.born[cargo.inst.id] == Origin(ctx, cargo.lease)
  {
    ReachableInv(c, s);
    QueueIsOk(c, s, ctx);
    if k < |GetQueue(s, ctx)| {
      assert EntryOk(s.born, ctx, GetQueue(s, ctx)[k]);
    }
    if i < |s.tasks| && IsHandle(s.tasks[i]) {
      assert TaskOk(s.born, s.tasks[i]);
    }
  }

  /**
   Isolation over time: if one handle and, at any later moment, another one give access to the
   same browser, the two were acquired for the same context.
   */
  lemma NeverCrossesContexts(c: Config, s: State, events: seq<Event>, s': State, i: nat, j: nat)
    requires Reachable(c, s) && Exec(c, s, events) == Some(s')
    requires i < |s.tasks| && IsHandle(s.tasks[i]) && j < |s'.tasks| && IsHandle(s'.tasks[j])
    requires s.tasks[i].held.cargo.inst.id == s'.tasks[j].held.cargo.inst.id
    ensures s.tasks[i].held.ctx == s'.tasks[j].held.ctx
    ensures s.tasks[i].held.cargo.lease == s'.tasks[j].held.cargo.lease
  {
    hide Exec, LawsAt;
    ReachableInv(c, s);
    ExecKeeps(c, s, events, s');
    ExecLosesMore(c, s, events, s');
    assert TaskOk(s.born, s.tasks[i]);
    assert TaskOk(s'.born, s'.tasks[j]);
  }

  /** A launched instance has exactly one holder until its process is gone, and none afterwards. */
  lemma OneHolder(c: Config, s: State, id: nat)
    requires Reachable(c, s)
    ensures Total(OfInst(id), s) == OneIf(id in s.born && id !in s.gone)
  {
    ReachableInv(c, s);
    assert LawsAt(c, s, id, 0);
  }

  /** Two handles never give access to the same browser. */
  lemma HandlesAreDistinct(c: Config, s: State, i: nat, j: nat)
    requires Reachable(c, s) && i < j < |s.tasks| && IsHandle(s.tasks[i]) && IsHandle(s.tasks[j])
    ensures s.tasks[i].held.cargo.inst.id != s.tasks[j].held.cargo.inst.id
  {
    var id := s.tasks[i].held.cargo.inst.id;
    OneHolder(c, s, id);
    TasksSplit(OfInst(id), s.tasks, i);
    var after := s.tasks[i + 1..];
    TasksSplit(OfInst(id), after, j - i - 1);
    assert after[j - i - 1] == s.tasks[j];
  }

  /** A browser in a caller's hands is in no idle queue. */
  lemma HandleIsNotIdle(c: Config, s: State, i: nat, ctx: Option<Context>, k: nat)
    requires Reachable(c, s) && i < |s.tasks| && IsHandle(s.tasks[i]) && k < |GetQueue(s, ctx)|
    ensures s.tasks[i].held.cargo.inst.id != GetQueue(s, ctx)[k].cargo.inst.id
  {
    var id := s.tasks[i].held.cargo.inst.id;
    OneHolder(c, s, id);
    TasksSplit(OfInst(id), s.tasks, i);
    EntryWithin(OfInst(id), GetQueue(s, ctx), k);
    QueueSplit(OfInst(id), s, ctx);
  }

  // ---------------------------------------------------------------- leases

  /**
   The fate of a bound lease. It is marked at most once and dropped at most once, a mark comes
   with an eviction or a released context and with nothing else, and as long as somebody holds
   it no second holder exists.
   */
  lemma LeaseFate(c: Config, s: State, l: nat)
    requires Reachable(c, s) && l in s.leases
    ensures var log := s.leases[l];
            && log.drops <= 1 && log.marks <= 1
            && (log.drops == 1 <==> Total(Serving(l), s) + Total(Leaving(l), s) == 0)
            && (log.drops == 1 ==> log.exit.Some?)
            && (log.marks == 1 <==> log.exit == Some(Evicted) || log.exit == Some(ContextReleased))
            && (log.exit.Some? ==> !log.exit.value.PoolFull? && !log.exit.value.IdleUnhealthy?)
  {
    ReachableInv(c, s);
    assert LawsAt(c, s, 0, l);
  }

  /** The lease of an idle browser, or of one in a caller's hands, is bound, unmarked and undropped. */
  lemma ServingLeaseIsOpen(c: Config, s: State, i: nat, ctx: Option<Context>, k: nat)
    requires Reachable(c, s)
    ensures i < |s.tasks| && IsHandle(s.tasks[i]) && s.tasks[i].held.cargo.lease.Some? ==>
              var l := s.tasks[i].held.cargo.lease.value;
              l in s.leases && s.leases[l] == LeaseLog(0, 0, None)
    ensures k < |GetQueue(s, ctx)| && GetQueue(s, ctx)[k].cargo.lease.Some? ==>
              var l := GetQueue(s, ctx)[k].cargo.lease.value;
              l in s.leases && s.leases[l] == LeaseLog(0, 0, None)
  {
    hide Total, EntriesW;
    ReachableInv(c, s);
    if i < |s.tasks| && IsHandle(s.tasks[i]) && s.tasks[i].held.cargo.lease.Some? {
      var l := s.tasks[i].held.cargo.lease.value;
      assert LawsAt(c, s, 0, l);
      TaskWithin(Serving(l), s, i);
    }
    if k < |GetQueue(s, ctx)| && GetQueue(s, ctx)[k].cargo.lease.Some? {
      var l := GetQueue(s, ctx)[k].cargo.lease.value;
      assert LawsAt(c, s, 0, l);
      EntryWithin(Serving(l), GetQueue(s, ctx), k);
      QueueWithin(Serving(l), s, ctx);
    }
  }
}
