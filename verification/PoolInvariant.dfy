/**
 The global invariant of the browser pool, and the proof that every step of every task keeps it.
 */
module PoolInvariant {
  import opened Options
  import opened PoolModel
  import opened PoolMeasure

  // ---------------------------------------------------------------- the laws

  /** The totals the laws of instance `id` and lease `l` speak about. */
  datatype Sums = Sums(slot: nat, counted: nat, inst: nat, serving: nat, leaving: nat)

  function Plus(a: Sums, b: Sums): Sums {
    Sums(a.slot + b.slot, a.counted + b.counted, a.inst + b.inst, a.serving + b.serving, a.leaving + b.leaving)
  }

  function TaskSums(t: Task, id: nat, l: nat): Sums {
    Sums(TaskW(Slot, t), TaskW(Counted, t), TaskW(OfInst(id), t), TaskW(Serving(l), t), TaskW(Leaving(l), t))
  }

  function QueueSums(q: seq<Entry>, id: nat, l: nat): Sums {
    Sums(EntriesW(Slot, q), EntriesW(Counted, q), EntriesW(OfInst(id), q),
         EntriesW(Serving(l), q), EntriesW(Leaving(l), q))
  }

  ghost function Totals(s: State, id: nat, l: nat): Sums {
    Sums(Total(Slot, s), Total(Counted, s), Total(OfInst(id), s), Total(Serving(l), s), Total(Leaving(l), s))
  }

  predicate CleanExit(e: Exit) {
    e.Evicted? || e.ContextReleased?
  }

  /**
   A bound lease has one holder until it is dropped, and is dropped once; it is marked iff it
   left cleanly, and it never leaves because the pool was full or an idle browser unhealthy.
   */
  predicate LeaseLaw(leases: map<nat, LeaseLog>, l: nat, serving: nat, leaving: nat) {
    if l !in leases then serving == 0 && leaving == 0
    else
      var log := leases[l];
      if log.exit.None? then serving == 1 && leaving == 0 && log.marks == 0 && log.drops == 0
      else serving == 0 && leaving + log.drops == 1 && log.marks == OneIf(CleanExit(log.exit.value))
           && !log.exit.value.PoolFull? && !log.exit.value.IdleUnhealthy?
  }

  /**
   The conservation laws of a state in which the holders add up to `n`. Every unit of capacity
   is a permit, is held, or is lost for good; `active_count` counts whatever will still be
   subtracted from it, and what was abandoned; a launched instance is in exactly one place
   until its process is gone.
   */
  predicate Laws(c: Config, s: State, id: nat, l: nat, n: Sums) {
    && s.permits + n.slot + s.evicted + s.abandoned == c.max
    && s.active == n.counted + s.abandoned
    && n.inst + OneIf(id in s.gone) == OneIf(id in s.born)
    && LeaseLaw(s.leases, l, n.serving, n.leaving)
  }

  predicate CargoOk(born: map<nat, Origin>, ctx: Option<Context>, cargo: Cargo) {
    cargo.inst.id in born && born[cargo.inst.id] == Origin(ctx, cargo.lease)
  }

  predicate EntryOk(born: map<nat, Origin>, ctx: Option<Context>, e: Entry) {
    CargoOk(born, ctx, e.cargo) && e.cargo.inst.healthy
  }

  predicate EntriesOk(born: map<nat, Origin>, ctx: Option<Context>, q: seq<Entry>) {
    forall k :: 0 <= k < |q| ==> EntryOk(born, ctx, q[k])
  }

  /** Oldest first, and no entry from the future. */
  predicate Aged(q: seq<Entry>, now: nat) {
    && (forall j, k :: 0 <= j < k < |q| ==> q[j].lastUsed <= q[k].lastUsed)
    && (forall k :: 0 <= k < |q| ==> q[k].lastUsed <= now)
  }

  predicate QueueOk(born: map<nat, Origin>, ctx: Option<Context>, q: seq<Entry>, now: nat) {
    EntriesOk(born, ctx, q) && Aged(q, now)
  }

  predicate QueuesOk(s: State) {
    && QueueOk(s.born, None, s.shared, s.now)
    && (forall id :: id in s.scoped ==> QueueOk(s.born, Some(id), s.scoped[id], s.now))
  }

  predicate AcqOk(born: map<nat, Origin>, pc: AcqPc) {
    match pc
    case Dispose(ctx, _, found, rest) =>
      rest == [] && (found.Some? ==> CargoOk(born, ctx, found.value) && found.value.inst.healthy)
    case PollDispose(_, _) => false
    case _ => true
  }

  predicate HandleOk(born: map<nat, Origin>, pc: HandlePc) {
    match pc
    case Handle(ctx, cargo) => CargoOk(born, ctx, cargo)
    case RelLock(ctx, cargo, _) => CargoOk(born, ctx, cargo) && cargo.inst.healthy
    case RelDispose(ctx, cargo) => CargoOk(born, ctx, cargo) && !cargo.inst.healthy
    case RelPermit(_) => true
  }

  /**
   What each task holds. A task that throws out an idle entry never exists, and a task that
   disposes of a released instance has an unhealthy one.
   */
  predicate TaskOk(born: map<nat, Origin>, t: Task) {
    match t
    case Done => true
    case Warm(pc) => pc.WarmPush? ==> CargoOk(born, None, pc.cargo) && pc.cargo.inst.healthy
    case Acq(pc) => AcqOk(born, pc)
    case Launching(pc) => pc.Count? && pc.who.Acquirer? ==> pc.lease.None?
    case Held(pc) => HandleOk(born, pc)
    case Disposer(_) => true
    case Sweeping(_) => true
    case Releasing(pc) => pc.CtxLock? || EntriesOk(born, Some(pc.id), pc.entries)
  }

  predicate TasksOk(s: State) {
    forall k :: 0 <= k < |s.tasks| ==> TaskOk(s.born, s.tasks[k])
  }

  ghost predicate LawsAt(c: Config, s: State, id: nat, l: nat) {
    Laws(c, s, id, l, Totals(s, id, l))
  }

  ghost predicate Inv(c: Config, s: State) {
    (forall id: nat, l: nat :: LawsAt(c, s, id, l)) && QueuesOk(s) && TasksOk(s)
  }

  // ---------------------------------------------------------------- the first state

  lemma InitKeeps(c: Config)
    ensures Inv(c, Init(c))
  {
    forall w ensures Total(w, Init(c)) == 0 {
      TasksOne(w, Warm(WarmNext(0)));
    }
  }

  // ---------------------------------------------------------------- one step, locally

  // `rest` stands for everything the step does not touch; `q` is the queue it reads.

  lemma DisposerLaws(c: Config, s: State, i: nat, pc: DisposerPc, id: nat, l: nat, rest: Sums)
    requires i < |s.tasks| && s.tasks[i] == Disposer(pc)
    requires Laws(c, s, id, l, Plus(rest, TaskSums(Disposer(pc), id, l)))
    ensures var s' := DisposerStep(s, i, pc);
            Laws(c, s', id, l, Plus(rest, TaskSums(s'.tasks[i], id, l)))
  {
    hide EntriesW, CargosW, WarmW, AcqW, LaunchW, HandleW, ContextW, SweepW, LeaseLaw;
  }

  /** What a launch holds, as numbers. */
  lemma LaunchSums(pc: LaunchPc, ctx: Option<Context>, id: nat, l: nat)
    ensures TaskSums(Launching(pc), id, l)
         == if pc.Count? then Sums(1, 0, 0, OneIf(pc.lease == Some(l)), 0)
            else if pc.Launch? then Sums(1, 1, 0, OneIf(pc.lease == Some(l)), 0)
            else Sums(1, OneIf(pc.Uncount?), 0, 0, OneIf(pc.lease == Some(l)))
    ensures TaskSums(Acq(Bind(ctx)), id, l) == Sums(1, 1, 0, 0, 0)
  {
    hide EntriesW, CargosW, WarmW, HandleW, DisposerW, ContextW, SweepW;
  }

  lemma IdleSums(i: nat, id: nat, l: nat)
    ensures TaskSums(Done, id, l) == TaskSums(Warm(WarmNext(i)), id, l) == Sums(0, 0, 0, 0, 0)
  {
    hide EntriesW, CargosW, AcqW, LaunchW, HandleW, DisposerW, ContextW, SweepW;
  }

  lemma HandleSums(ctx: Option<Context>, cargo: Cargo, detached: bool, id: nat, l: nat)
    ensures TaskSums(Held(Handle(ctx, cargo)), id, l) == TaskSums(Held(RelLock(ctx, cargo, detached)), id, l)
         == Sums(1, 1, OneIf(cargo.inst.id == id), OneIf(cargo.lease == Some(l)), 0)
    ensures TaskSums(Held(RelDispose(ctx, cargo)), id, l)
         == Sums(1, 1, OneIf(cargo.inst.id == id), 0, OneIf(cargo.lease == Some(l)))
  {
    hide EntriesW, CargosW, WarmW, AcqW, LaunchW, DisposerW, ContextW, SweepW;
  }

  lemma PushSums(i: nat, cargo: Cargo, id: nat, l: nat)
    ensures TaskSums(Warm(WarmPush(i, cargo)), id, l)
         == Sums(1, 1, OneIf(cargo.inst.id == id), OneIf(cargo.lease == Some(l)), 0)
  {
    hide EntriesW, CargosW, AcqW, LaunchW, HandleW, DisposerW, ContextW, SweepW;
  }

  /** A lease that leaves for a bad reason changes from serving to leaving, and is not marked. */
  lemma BadExit(leases: map<nat, LeaseLog>, lease: Option<nat>, e: Exit, l: nat, serving: nat, leaving: nat)
    requires LeaseLaw(leases, l, serving + OneIf(lease == Some(l)), leaving)
    requires e.LaunchFailed? || e.Unhealthy?
    ensures LeaseLaw(Depart(leases, lease, e), l, serving, leaving + OneIf(lease == Some(l)))
  {
  }

  /** The last holder of a lease that is on its way out drops it. */
  lemma LastDrop(leases: map<nat, LeaseLog>, lease: Option<nat>, l: nat, serving: nat, leaving: nat)
    requires LeaseLaw(leases, l, serving, leaving + OneIf(lease == Some(l)))
    ensures LeaseLaw(Drop(leases, lease), l, serving, leaving)
  {
  }

  lemma CountingLaws(c: Config, s: State, i: nat, pc: LaunchPc, env: Env, s': State, id: nat, l: nat, rest: Sums)
    requires i < |s.tasks| && s.tasks[i] == Launching(pc) && !pc.Launch? && TaskOk(s.born, s.tasks[i])
    requires LaunchStep(s, i, pc, env) == Some(s')
    requires Laws(c, s, id, l, Plus(rest, TaskSums(Launching(pc), id, l)))
    ensures Laws(c, s', id, l, Plus(rest, TaskSums(s'.tasks[i], id, l)))
  {
    hide TaskSums, LeaseLaw, Drop;
    var who, lease := pc.who, pc.lease;
    LaunchSums(pc, if who.Acquirer? then who.ctx else None, id, l);
    if pc.Count? {
      assert s'.tasks[i] == if who.Acquirer? then Acq(Bind(who.ctx)) else Launching(Launch(who, lease));
      LaunchSums(Launch(who, lease), None, id, l);
    } else if pc.Uncount? {
      assert s'.tasks[i] == Launching(Unpermit(who, lease));
      LaunchSums(Unpermit(who, lease), None, id, l);
    } else {
      assert s'.tasks[i] == if who.Acquirer? then Done else Warm(WarmNext(who.i + 1));
      IdleSums(if who.Acquirer? then 0 else who.i + 1, id, l);
      LastDrop(s.leases, lease, l, rest.serving, rest.leaving);
    }
  }

  lemma LaunchLaws(c: Config, s: State, i: nat, pc: LaunchPc, env: Env, s': State, id: nat, l: nat, rest: Sums)
    requires i < |s.tasks| && s.tasks[i] == Launching(pc) && pc.Launch?
    requires LaunchStep(s, i, pc, env) == Some(s')
    requires Laws(c, s, id, l, Plus(rest, TaskSums(Launching(pc), id, l)))
    ensures Laws(c, s', id, l, Plus(rest, TaskSums(s'.tasks[i], id, l)))
  {
    hide TaskSums, LeaseLaw, Depart;
    var who, lease := pc.who, pc.lease;
    LaunchSums(pc, None, id, l);
    if env == LaunchError {
      assert s'.tasks[i] == Launching(Uncount(who, lease));
      LaunchSums(Uncount(who, lease), None, id, l);
      BadExit(s.leases, lease, LaunchFailed, l, rest.serving, rest.leaving);
    } else {
      var cargo := Cargo(Instance(env.id, true), lease);
      assert s'.tasks[i] == if who.Acquirer? then Held(Handle(who.ctx, cargo)) else Warm(WarmPush(who.i, cargo));
      HandleSums(if who.Acquirer? then who.ctx else None, cargo, false, id, l);
      PushSums(if who.Warmer? then who.i else 0, cargo, id, l);
    }
  }

  lemma WarmNextLaws(c: Config, s: State, i: nat, pc: WarmPc, env: Env, s': State, id: nat, l: nat, rest: Sums)
    requires i < |s.tasks| && s.tasks[i] == Warm(pc) && pc.WarmNext?
    requires WarmStep(c, s, i, pc, env) == Some(s')
    requires Laws(c, s, id, l, Plus(rest, TaskSums(Warm(pc), id, l)))
    ensures Laws(c, s', id, l, Plus(rest, TaskSums(s'.tasks[i], id, l)))
  {
    hide EntriesW, CargosW, AcqW, LaunchW, HandleW, DisposerW, ContextW, SweepW;
  }

  lemma WarmPermitLaws(c: Config, s: State, i: nat, pc: WarmPc, env: Env, s': State, id: nat, l: nat, rest: Sums)
    requires i < |s.tasks| && s.tasks[i] == Warm(pc) && pc.WarmPermit?
    requires WarmStep(c, s, i, pc, env) == Some(s')
    requires Laws(c, s, id, l, Plus(rest, TaskSums(Warm(pc), id, l)))
    ensures Laws(c, s', id, l, Plus(rest, TaskSums(s'.tasks[i], id, l)))
  {
    hide EntriesW, CargosW, HandleW, DisposerW, ContextW, AcqW;
    if s.permits > 0 {
      assert s'.leases == s.leases;
    }
  }

  lemma WaitLaws(c: Config, s: State, i: nat, pc: AcqPc, env: Env, s': State, id: nat, l: nat, rest: Sums)
    requires i < |s.tasks| && s.tasks[i] == Acq(pc) && (pc.Start? || pc.Wait?) && TaskOk(s.born, s.tasks[i])
    requires AcquireStep(c, s, i, pc, env) == Some(s')
    requires Laws(c, s, id, l, Plus(rest, TaskSums(Acq(pc), id, l)))
    ensures Laws(c, s', id, l, Plus(rest, TaskSums(s'.tasks[i], id, l)))
  {
    hide EntriesW, CargosW, WarmW, HandleW, DisposerW, ContextW, SweepW, LeaseLaw;
  }

  lemma HandOutLaws(c: Config, s: State, i: nat, pc: AcqPc, env: Env, s': State, id: nat, l: nat, rest: Sums)
    requires i < |s.tasks| && s.tasks[i] == Acq(pc) && pc.Dispose? && TaskOk(s.born, s.tasks[i])
    requires AcquireStep(c, s, i, pc, env) == Some(s')
    requires Laws(c, s, id, l, Plus(rest, TaskSums(Acq(pc), id, l)))
    ensures Laws(c, s', id, l, Plus(rest, TaskSums(s'.tasks[i], id, l)))
  {
    hide EntriesW, WarmW, LaunchW, DisposerW, ContextW, SweepW, Depart, Drop;
    assert pc.rest == [];
    assert s' == s.(tasks := s'.tasks);
    if pc.found.Some? {
      assert s'.tasks[i] == Held(Handle(pc.ctx, pc.found.value));
    } else {
      assert s'.tasks[i] == if pc.active < c.max then Acq(Wait(pc.ctx, pc.active)) else Acq(Poll(pc.ctx));
    }
    hide AcquireStep, LeaseLaw;
  }

  lemma BindLaws(c: Config, s: State, i: nat, pc: AcqPc, env: Env, s': State, id: nat, l: nat, rest: Sums)
    requires i < |s.tasks| && s.tasks[i] == Acq(pc) && pc.Bind? && TaskOk(s.born, s.tasks[i])
    requires AcquireStep(c, s, i, pc, env) == Some(s')
    requires Laws(c, s, id, l, Plus(rest, TaskSums(Acq(pc), id, l)))
    ensures Laws(c, s', id, l, Plus(rest, TaskSums(s'.tasks[i], id, l)))
  {
    hide EntriesW, CargosW, WarmW, HandleW, DisposerW, ContextW, SweepW;
  }

  lemma HealthLaws(c: Config, s: State, i: nat, pc: HandlePc, env: Env, s': State, id: nat, l: nat, rest: Sums)
    requires i < |s.tasks| && s.tasks[i] == Held(pc) && pc.Handle? && env.Health?
    requires ReleaseStep(c, s, i, pc, env) == Some(s')
    requires Laws(c, s, id, l, Plus(rest, TaskSums(Held(pc), id, l)))
    ensures Laws(c, s', id, l, Plus(rest, TaskSums(s'.tasks[i], id, l)))
  {
    hide EntriesW, CargosW, WarmW, AcqW, LaunchW, DisposerW, ContextW, SweepW, LeaseLaw;
  }

  lemma HandBackLaws(c: Config, s: State, i: nat, pc: HandlePc, env: Env, s': State, id: nat, l: nat, rest: Sums)
    requires i < |s.tasks| && s.tasks[i] == Held(pc) && pc.Handle? && !env.Health?
    requires ReleaseStep(c, s, i, pc, env) == Some(s')
    requires Laws(c, s, id, l, Plus(rest, TaskSums(Held(pc), id, l)))
    ensures Laws(c, s', id, l, Plus(rest, TaskSums(s'.tasks[i], id, l)))
  {
    hide TaskSums, LeaseLaw, Depart;
    HandleSums(pc.ctx, pc.cargo, env == DropHandle, id, l);
    if pc.cargo.inst.healthy {
      assert s'.tasks[i] == Held(RelLock(pc.ctx, pc.cargo, env == DropHandle)) && s'.leases == s.leases;
    } else {
      assert s'.tasks[i] == Held(RelDispose(pc.ctx, pc.cargo));
      BadExit(s.leases, pc.cargo.lease, Unhealthy, l, rest.serving, rest.leaving);
    }
  }

  lemma RelPermitLaws(c: Config, s: State, i: nat, pc: HandlePc, env: Env, s': State, id: nat, l: nat, rest: Sums)
    requires i < |s.tasks| && s.tasks[i] == Held(pc) && pc.RelPermit?
    requires ReleaseStep(c, s, i, pc, env) == Some(s')
    requires Laws(c, s, id, l, Plus(rest, TaskSums(Held(pc), id, l)))
    ensures Laws(c, s', id, l, Plus(rest, TaskSums(s'.tasks[i], id, l)))
  {
    hide EntriesW, CargosW, WarmW, AcqW, LaunchW, DisposerW, ContextW, SweepW;
  }

  lemma DisposeLaws(c: Config, s: State, i: nat, pc: HandlePc, env: Env, s': State, id: nat, l: nat, rest: Sums)
    requires i < |s.tasks| && s.tasks[i] == Held(pc) && pc.RelDispose?
    requires ReleaseStep(c, s, i, pc, env) == Some(s')
    requires Laws(c, s, id, l, Plus(rest, TaskSums(Held(pc), id, l)))
    ensures var spawned := Disposer(Closing(pc.cargo.inst));
            Laws(c, s', id, l, Plus(Plus(rest, TaskSums(s'.tasks[i], id, l)), TaskSums(spawned, id, l)))
  {
    hide EntriesW, CargosW, WarmW, AcqW, LaunchW, ContextW, SweepW;
  }

  lemma ContextLaws(c: Config, s: State, i: nat, pc: ContextPc, id: nat, l: nat, rest: Sums)
    requires i < |s.tasks| && s.tasks[i] == Releasing(pc) && (pc.CtxPermit? || (pc.CtxDrain? && pc.entries == []))
    requires Laws(c, s, id, l, Plus(rest, TaskSums(Releasing(pc), id, l)))
    ensures var s' := ContextStep(s, i, pc);
            Laws(c, s', id, l, Plus(rest, TaskSums(s'.tasks[i], id, l)))
  {
    hide CargosW, WarmW, AcqW, LaunchW, HandleW, DisposerW, SweepW;
  }

  lemma DrainLaws(c: Config, s: State, i: nat, pc: ContextPc, id: nat, l: nat, rest: Sums)
    requires i < |s.tasks| && s.tasks[i] == Releasing(pc) && pc.CtxDrain? && pc.entries != []
    requires Laws(c, s, id, l, Plus(rest, TaskSums(Releasing(pc), id, l)))
    ensures var s' := ContextStep(s, i, pc);
            Laws(c, s', id, l, Plus(Plus(rest, TaskSums(s'.tasks[i], id, l)),
                                    TaskSums(Disposer(Closing(pc.entries[0].cargo.inst)), id, l)))
  {
    hide EntriesW, CargosW, WarmW, AcqW, LaunchW, HandleW, SweepW;
    EntriesHead(Slot, pc.entries);
    EntriesHead(Counted, pc.entries);
    EntriesHead(OfInst(id), pc.entries);
    EntriesHead(Serving(l), pc.entries);
    EntriesHead(Leaving(l), pc.entries);
  }

  lemma EvictCountLaws(c: Config, s: State, i: nat, pc: SweepPc, id: nat, l: nat, rest: Sums)
    requires i < |s.tasks| && s.tasks[i] == Sweeping(pc) && (pc.EvictCount? || pc.entries == [])
    requires Laws(c, s, id, l, Plus(rest, TaskSums(Sweeping(pc), id, l)))
    ensures var s' := EvictStep(s, i, pc);
            Laws(c, s', id, l, Plus(rest, TaskSums(s'.tasks[i], id, l)))
  {
    hide CargosW, WarmW, AcqW, LaunchW, HandleW, DisposerW, ContextW;
  }

  lemma EvictLaws(c: Config, s: State, i: nat, pc: SweepPc, id: nat, l: nat, rest: Sums)
    requires i < |s.tasks| && s.tasks[i] == Sweeping(pc) && pc.Evict? && pc.entries != []
    requires Laws(c, s, id, l, Plus(rest, TaskSums(Sweeping(pc), id, l)))
    ensures var s' := EvictStep(s, i, pc);
            Laws(c, s', id, l, Plus(Plus(rest, TaskSums(s'.tasks[i], id, l)),
                                    TaskSums(Disposer(EvictClosing(pc.entries[0].cargo.inst)), id, l)))
  {
    hide EntriesW, CargosW, WarmW, AcqW, LaunchW, HandleW, ContextW;
    EntriesHead(Slot, pc.entries);
    EntriesHead(Counted, pc.entries);
    EntriesHead(OfInst(id), pc.entries);
    EntriesHead(Serving(l), pc.entries);
    EntriesHead(Leaving(l), pc.entries);
  }

  lemma CancelIdleLaws(c: Config, s: State, i: nat, s': State, id: nat, l: nat, rest: Sums)
    requires i < |s.tasks| && !s.tasks[i].Launching? && !s.tasks[i].Held? && CancelStep(s, i) == Some(s')
    requires Laws(c, s, id, l, Plus(rest, TaskSums(s.tasks[i], id, l)))
    ensures Laws(c, s', id, l, Plus(rest, TaskSums(Done, id, l)))
  {
    hide EntriesW, CargosW, WarmW, HandleW, DisposerW, LaunchW, SweepW;
  }

  lemma CancelLaunchLaws(c: Config, s: State, i: nat, s': State, id: nat, l: nat, rest: Sums)
    requires i < |s.tasks| && s.tasks[i].Launching? && CancelStep(s, i) == Some(s')
    requires Laws(c, s, id, l, Plus(rest, TaskSums(s.tasks[i], id, l)))
    ensures Laws(c, s', id, l, Plus(rest, TaskSums(Done, id, l)))
  {
    hide EntriesW, CargosW, WarmW, AcqW, HandleW, DisposerW, ContextW, SweepW;
  }

  lemma CancelReleaseLaws(c: Config, s: State, i: nat, s': State, id: nat, l: nat, rest: Sums)
    requires i < |s.tasks| && s.tasks[i].Held? && CancelStep(s, i) == Some(s')
    requires Laws(c, s, id, l, Plus(rest, TaskSums(s.tasks[i], id, l)))
    ensures Laws(c, s', id, l, Plus(rest, TaskSums(Done, id, l)))
  {
    hide EntriesW, CargosW, WarmW, AcqW, LaunchW, DisposerW, ContextW, SweepW;
  }
}
