/**
 Every event keeps the pool invariant, so every state reachable by any interleaving satisfies it.
 */
module PoolSteps {
  import opened Options
  import opened PoolModel
  import opened PoolMeasure
  import opened PoolInvariant

  // ---------------------------------------------------------------- totals before and after a step

  function SpawnSums(spawned: seq<Task>, id: nat, l: nat): Sums
    requires |spawned| <= 1
  {
    if |spawned| == 1 then TaskSums(spawned[0], id, l) else Sums(0, 0, 0, 0, 0)
  }

  lemma StepSum(w: Weight, s: State, s': State, i: nat, t: Task, spawned: seq<Task>,
                ctx: Option<Context>, q: seq<Entry>)
    returns (rest: nat)
    requires i < |s.tasks| && |spawned| <= 1
    requires s'.tasks == s.tasks[i := t] + spawned
    requires GetQueue(s', ctx) == q
    requires ctx.None? ==> s'.scoped == s.scoped
    requires ctx.Some? ==> s'.shared == s.shared && s'.scoped - {ctx.value} == s.scoped - {ctx.value}
    ensures Total(w, s) == rest + TaskW(w, s.tasks[i]) + EntriesW(w, GetQueue(s, ctx))
    ensures Total(w, s') == rest + TaskW(w, t) + (if |spawned| == 1 then TaskW(w, spawned[0]) else 0) + EntriesW(w, q)
  {
    rest := StepTotal(w, s, s', i, t, spawned, ctx, q);
    if |spawned| == 1 {
      assert spawned == [spawned[0]];
      TasksOne(w, spawned[0]);
    }
  }

  /** The task at `i` becomes `t`, spawns `spawned`, and leaves `q` in the queue of `ctx`. */
  lemma QueueStep(s: State, s': State, i: nat, t: Task, spawned: seq<Task>,
                  ctx: Option<Context>, q: seq<Entry>, id: nat, l: nat)
    returns (rest: Sums)
    requires i < |s.tasks| && |spawned| <= 1
    requires s'.tasks == s.tasks[i := t] + spawned
    requires GetQueue(s', ctx) == q
    requires ctx.None? ==> s'.scoped == s.scoped
    requires ctx.Some? ==> s'.shared == s.shared && s'.scoped - {ctx.value} == s.scoped - {ctx.value}
    ensures Totals(s, id, l) == Plus(Plus(rest, QueueSums(GetQueue(s, ctx), id, l)), TaskSums(s.tasks[i], id, l))
    ensures Totals(s', id, l)
         == Plus(Plus(Plus(rest, QueueSums(q, id, l)), TaskSums(t, id, l)), SpawnSums(spawned, id, l))
  {
    hide Total;
    var a := StepSum(Slot, s, s', i, t, spawned, ctx, q);
    var b := StepSum(Counted, s, s', i, t, spawned, ctx, q);
    var d := StepSum(OfInst(id), s, s', i, t, spawned, ctx, q);
    var e := StepSum(Serving(l), s, s', i, t, spawned, ctx, q);
    var f := StepSum(Leaving(l), s, s', i, t, spawned, ctx, q);
    rest := Sums(a, b, d, e, f);
  }

  /** A step that touches no queue. */
  lemma TaskStep(s: State, s': State, i: nat, t: Task, spawned: seq<Task>, id: nat, l: nat)
    returns (rest: Sums)
    requires i < |s.tasks| && |spawned| <= 1
    requires s'.tasks == s.tasks[i := t] + spawned
    requires s'.shared == s.shared && s'.scoped == s.scoped
    ensures Totals(s, id, l) == Plus(rest, TaskSums(s.tasks[i], id, l))
    ensures Totals(s', id, l) == Plus(Plus(rest, TaskSums(t, id, l)), SpawnSums(spawned, id, l))
  {
    hide Total;
    var r := QueueStep(s, s', i, t, spawned, None, s.shared, id, l);
    rest := Plus(r, QueueSums(s.shared, id, l));
  }

  // ---------------------------------------------------------------- what tasks and queues hold

  predicate Grows(born: map<nat, Origin>, born': map<nat, Origin>) {
    forall id :: id in born ==> id in born' && born'[id] == born[id]
  }

  lemma TasksKeep(s: State, s': State, i: nat, t: Task, spawned: seq<Task>)
    requires TasksOk(s) && i < |s.tasks| && Grows(s.born, s'.born)
    requires s'.tasks == s.tasks[i := t] + spawned
    requires TaskOk(s'.born, t) && forall k :: 0 <= k < |spawned| ==> TaskOk(s'.born, spawned[k])
    ensures TasksOk(s')
  {
    forall k | 0 <= k < |s'.tasks| ensures TaskOk(s'.born, s'.tasks[k]) {
      if k < |s.tasks| && k != i {
        assert TaskOk(s.born, s.tasks[k]);
      }
    }
  }

  lemma QueuesKeep(s: State, s': State)
    requires QueuesOk(s) && Grows(s.born, s'.born) && s'.now >= s.now
    requires s'.shared == s.shared && s'.scoped == s.scoped
    ensures QueuesOk(s')
  {
    forall id | id in s'.scoped ensures QueueOk(s'.born, Some(id), s'.scoped[id], s'.now) {
      assert QueueOk(s.born, Some(id), s.scoped[id], s.now);
    }
  }

  // ---------------------------------------------------------------- steps that change a queue

  predicate AllUnhealthy(q: seq<Entry>) {
    forall j :: 0 <= j < |q| ==> !q[j].cargo.inst.healthy
  }

  /**
   For arbitrary health flags: without a healthy entry everything is thrown out. Else the first healthy one, at
   `k`, is found, the unhealthy ones before it and after it, up to the next healthy one at `m`, are thrown out,
   and from there on the queue stays.
   */
  lemma PopSplits(q: seq<Entry>) returns (k: nat, m: nat)
    ensures AllUnhealthy(q) <==> FastPop(q).found == None
    ensures AllUnhealthy(q) ==> FastPop(q) == Popped(None, Cargos(q), [])
    ensures !AllUnhealthy(q) ==>
              && k < m <= |q| && AllUnhealthy(q[..k]) && q[k].cargo.inst.healthy && AllUnhealthy(q[k + 1..m])
              && (m < |q| ==> q[m].cargo.inst.healthy)
              && FastPop(q) == Popped(Some(q[k].cargo), Cargos(q[..k]) + Cargos(q[k + 1..m]), q[m..])
  {
    hide NextHealthy;
    k := NextHealthy(q, 0);
    NextHealthyIsFirst(q, 0);
    m := k;
    if k < |q| {
      m := NextHealthy(q, k + 1);
      NextHealthyIsFirst(q, k + 1);
      assert Cargos(q[..k] + q[k + 1..m]) == Cargos(q[..k]) + Cargos(q[k + 1..m]);
    }
  }

  /** A queue of healthy entries gives up its head and nothing else. */
  lemma HealthyPop(q: seq<Entry>)
    requires forall k :: 0 <= k < |q| ==> q[k].cargo.inst.healthy
    ensures FastPop(q) == if q == [] then Popped(None, [], []) else Popped(Some(q[0].cargo), [], q[1..])
  {
    if q != [] {
      assert NextHealthy(q, 0) == 0;
      var m := NextHealthy(q, 1);
      assert m == 1;
      assert Cargos(q[..0] + q[1..1]) == [];
    }
  }

  lemma QueueAppend(q: seq<Entry>, e: Entry, ctx: Option<Context>, id: nat, l: nat)
    ensures QueueSums(q + [e], id, l) == Plus(QueueSums(q, id, l), QueueSums([e], id, l))
    ensures QueueSums([e], id, l) == TaskSums(Held(Handle(ctx, e.cargo)), id, l)
  {
    EntriesAppend(Slot, q, [e]);
    EntriesAppend(Counted, q, [e]);
    EntriesAppend(OfInst(id), q, [e]);
    EntriesAppend(Serving(l), q, [e]);
    EntriesAppend(Leaving(l), q, [e]);
    EntriesOne(Slot, e);
    EntriesOne(Counted, e);
    EntriesOne(OfInst(id), e);
    EntriesOne(Serving(l), e);
    EntriesOne(Leaving(l), e);
  }

  // ---------------------------------------------------------------- every task step keeps the invariant

  /** The laws of a step carry over from what the task holds to the whole state. */
  ghost predicate Balanced(c: Config, s: State, s': State, i: nat, t: Task, spawned: seq<Task>, id: nat, l: nat,
                           rest: Sums)
    requires i < |s.tasks| && |spawned| <= 1
  {
    Laws(c, s, id, l, Plus(rest, TaskSums(s.tasks[i], id, l))) ==>
      Laws(c, s', id, l, Plus(Plus(rest, TaskSums(t, id, l)), SpawnSums(spawned, id, l)))
  }

  lemma TaskIsOk(c: Config, s: State, i: nat)
    requires Inv(c, s) && i < |s.tasks|
    ensures TaskOk(s.born, s.tasks[i])
  {
  }

  lemma BalancedKeeps(c: Config, s: State, s': State, i: nat, t: Task, spawned: seq<Task>)
    requires Inv(c, s) && i < |s.tasks| && |spawned| <= 1
    requires s'.tasks == s.tasks[i := t] + spawned
    requires s'.shared == s.shared && s'.scoped == s.scoped && s'.now == s.now && Grows(s.born, s'.born)
    requires TaskOk(s'.born, t) && forall k :: 0 <= k < |spawned| ==> TaskOk(s'.born, spawned[k])
    requires forall id, l, rest :: Balanced(c, s, s', i, t, spawned, id, l, rest)
    ensures Inv(c, s')
  {
    hide Laws, TaskSums, Totals;
    TasksKeep(s, s', i, t, spawned);
    QueuesKeep(s, s');
    forall id: nat, l: nat ensures LawsAt(c, s', id, l) {
      assert LawsAt(c, s, id, l);
      var rest := TaskStep(s, s', i, t, spawned, id, l);
      assert Balanced(c, s, s', i, t, spawned, id, l, rest);
    }
  }

  lemma DisposerKeeps(c: Config, s: State, i: nat)
    requires Inv(c, s) && i < |s.tasks| && s.tasks[i].Disposer?
    ensures Inv(c, DisposerStep(s, i, s.tasks[i].disposer))
  {
    hide Inv, Laws, TaskSums;
    var pc := s.tasks[i].disposer;
    var s' := DisposerStep(s, i, pc);
    var t := s'.tasks[i];
    forall id, l, rest ensures Balanced(c, s, s', i, t, [], id, l, rest) {
      if Laws(c, s, id, l, Plus(rest, TaskSums(s.tasks[i], id, l))) {
        DisposerLaws(c, s, i, pc, id, l, rest);
      }
    }
    BalancedKeeps(c, s, s', i, t, []);
  }

  /** What a launch becomes. */
  function LaunchTo(pc: LaunchPc, env: Env): Task {
    match pc
    case Count(who, lease) => if who.Acquirer? then Acq(Bind(who.ctx)) else Launching(Launch(who, lease))
    case Launch(who, lease) =>
      if !env.Launched? then Launching(Uncount(who, lease))
      else if who.Acquirer? then Held(Handle(who.ctx, Cargo(Instance(env.id, true), lease)))
      else Warm(WarmPush(who.i, Cargo(Instance(env.id, true), lease)))
    case Uncount(who, lease) => Launching(Unpermit(who, lease))
    case Unpermit(who, _) => if who.Acquirer? then Done else Warm(WarmNext(who.i + 1))
  }

  lemma LaunchTasks(s: State, i: nat, env: Env, s': State)
    requires i < |s.tasks| && s.tasks[i].Launching? && LaunchStep(s, i, s.tasks[i].launch, env) == Some(s')
    ensures s'.tasks == s.tasks[i := LaunchTo(s.tasks[i].launch, env)] + []
  {
    hide Depart, Drop;
    match s.tasks[i].launch {
      case Count(who, lease) =>
      case Launch(who, lease) =>
      case Uncount(who, lease) =>
      case Unpermit(who, lease) =>
    }
  }

  lemma LaunchFrame(s: State, i: nat, env: Env, s': State)
    requires i < |s.tasks| && s.tasks[i].Launching? && LaunchStep(s, i, s.tasks[i].launch, env) == Some(s')
    ensures s'.tasks == s.tasks[i := LaunchTo(s.tasks[i].launch, env)] + []
    ensures s'.shared == s.shared && s'.scoped == s.scoped && s'.now == s.now && s'.locked == s.locked
    ensures s'.evicted == s.evicted && s'.abandoned == s.abandoned && Grows(s.born, s'.born)
  {
    hide Depart, Drop, Grows, LaunchTo;
    LaunchTasks(s, i, env, s');
    var pc := s.tasks[i].launch;
    SameBorn(s.born);
    if pc.Launch? && env.Launched? {
      MoreBorn(s.born, env.id, Origin(if pc.who.Acquirer? then pc.who.ctx else None, pc.lease));
    }
  }

  lemma SameBorn(born: map<nat, Origin>)
    ensures Grows(born, born)
  {
  }

  lemma MoreBorn(born: map<nat, Origin>, id: nat, origin: Origin)
    requires id !in born
    ensures Grows(born, born[id := origin])
  {
  }

  lemma LaunchOk(s: State, i: nat, env: Env, s': State)
    requires i < |s.tasks| && s.tasks[i].Launching? && LaunchStep(s, i, s.tasks[i].launch, env) == Some(s')
    requires TaskOk(s.born, s.tasks[i])
    ensures TaskOk(s'.born, LaunchTo(s.tasks[i].launch, env))
  {
    hide Depart, Drop;
  }

  lemma LaunchKeeps(c: Config, s: State, i: nat, env: Env, s': State)
    requires Inv(c, s) && i < |s.tasks| && s.tasks[i].Launching?
    requires LaunchStep(s, i, s.tasks[i].launch, env) == Some(s')
    ensures Inv(c, s')
  {
    hide Inv, Laws, TaskSums, LaunchStep, TaskOk, Grows, LaunchTo;
    TaskIsOk(c, s, i);
    LaunchFrame(s, i, env, s');
    LaunchOk(s, i, env, s');
    var pc, t := s.tasks[i].launch, LaunchTo(s.tasks[i].launch, env);
    assert s'.tasks[i] == t;
    forall id, l, rest ensures Balanced(c, s, s', i, t, [], id, l, rest) {
      if Laws(c, s, id, l, Plus(rest, TaskSums(s.tasks[i], id, l))) {
        if pc.Launch? {
          LaunchLaws(c, s, i, pc, env, s', id, l, rest);
        } else {
          CountingLaws(c, s, i, pc, env, s', id, l, rest);
        }
      }
    }
    BalancedKeeps(c, s, s', i, t, []);
  }

  lemma WarmNextKeeps(c: Config, s: State, i: nat, env: Env, s': State)
    requires Inv(c, s) && i < |s.tasks| && s.tasks[i].Warm? && s.tasks[i].warm.WarmNext?
    requires WarmStep(c, s, i, s.tasks[i].warm, env) == Some(s')
    ensures Inv(c, s')
  {
    hide Inv, Laws, TaskSums;
    var pc, t := s.tasks[i].warm, s'.tasks[i];
    forall id, l, rest ensures Balanced(c, s, s', i, t, [], id, l, rest) {
      if Laws(c, s, id, l, Plus(rest, TaskSums(s.tasks[i], id, l))) {
        WarmNextLaws(c, s, i, pc, env, s', id, l, rest);
      }
    }
    BalancedKeeps(c, s, s', i, t, []);
  }

  lemma WarmPermitKeeps(c: Config, s: State, i: nat, env: Env, s': State)
    requires Inv(c, s) && i < |s.tasks| && s.tasks[i].Warm? && s.tasks[i].warm.WarmPermit?
    requires WarmStep(c, s, i, s.tasks[i].warm, env) == Some(s')
    ensures Inv(c, s')
  {
    hide Inv, Laws, TaskSums;
    var pc, t := s.tasks[i].warm, s'.tasks[i];
    forall id, l, rest ensures Balanced(c, s, s', i, t, [], id, l, rest) {
      if Laws(c, s, id, l, Plus(rest, TaskSums(s.tasks[i], id, l))) {
        WarmPermitLaws(c, s, i, pc, env, s', id, l, rest);
      }
    }
    BalancedKeeps(c, s, s', i, t, []);
  }

  lemma BindKeeps(c: Config, s: State, i: nat, env: Env, s': State)
    requires Inv(c, s) && i < |s.tasks| && s.tasks[i].Acq? && s.tasks[i].acq.Bind?
    requires AcquireStep(c, s, i, s.tasks[i].acq, env) == Some(s')
    ensures Inv(c, s')
  {
    hide Inv, Laws, TaskSums;
    var pc, t := s.tasks[i].acq, s'.tasks[i];
    TaskIsOk(c, s, i);
    forall id, l, rest ensures Balanced(c, s, s', i, t, [], id, l, rest) {
      if Laws(c, s, id, l, Plus(rest, TaskSums(s.tasks[i], id, l))) {
        BindLaws(c, s, i, pc, env, s', id, l, rest);
      }
    }
    BalancedKeeps(c, s, s', i, t, []);
  }

  lemma WaitKeeps(c: Config, s: State, i: nat, env: Env, s': State)
    requires Inv(c, s) && i < |s.tasks| && s.tasks[i].Acq? && (s.tasks[i].acq.Start? || s.tasks[i].acq.Wait?)
    requires AcquireStep(c, s, i, s.tasks[i].acq, env) == Some(s')
    ensures Inv(c, s')
  {
    hide Inv, Laws, TaskSums;
    var pc, t := s.tasks[i].acq, s'.tasks[i];
    TaskIsOk(c, s, i);
    forall id, l, rest ensures Balanced(c, s, s', i, t, [], id, l, rest) {
      if Laws(c, s, id, l, Plus(rest, TaskSums(s.tasks[i], id, l))) {
        WaitLaws(c, s, i, pc, env, s', id, l, rest);
      }
    }
    BalancedKeeps(c, s, s', i, t, []);
  }

  lemma HandOutKeeps(c: Config, s: State, i: nat, env: Env, s': State)
    requires Inv(c, s) && i < |s.tasks| && s.tasks[i].Acq? && s.tasks[i].acq.Dispose?
    requires AcquireStep(c, s, i, s.tasks[i].acq, env) == Some(s')
    ensures Inv(c, s')
  {
    hide Inv, Laws, TaskSums;
    var pc, t := s.tasks[i].acq, s'.tasks[i];
    TaskIsOk(c, s, i);
    forall id, l, rest ensures Balanced(c, s, s', i, t, [], id, l, rest) {
      if Laws(c, s, id, l, Plus(rest, TaskSums(s.tasks[i], id, l))) {
        HandOutLaws(c, s, i, pc, env, s', id, l, rest);
      }
    }
    BalancedKeeps(c, s, s', i, t, []);
  }

  lemma ReleaseKeeps(c: Config, s: State, i: nat, env: Env, s': State)
    requires Inv(c, s) && i < |s.tasks| && s.tasks[i].Held? && !s.tasks[i].held.RelLock?
    requires ReleaseStep(c, s, i, s.tasks[i].held, env) == Some(s')
    ensures Inv(c, s')
  {
    hide Inv, Laws, TaskSums;
    var pc, t := s.tasks[i].held, s'.tasks[i];
    TaskIsOk(c, s, i);
    var spawned := if pc.RelDispose? then [Disposer(Closing(pc.cargo.inst))] else [];
    forall id, l, rest ensures Balanced(c, s, s', i, t, spawned, id, l, rest) {
      if Laws(c, s, id, l, Plus(rest, TaskSums(s.tasks[i], id, l))) {
        if pc.Handle? && env.Health? {
          HealthLaws(c, s, i, pc, env, s', id, l, rest);
        } else if pc.Handle? {
          HandBackLaws(c, s, i, pc, env, s', id, l, rest);
        } else if pc.RelPermit? {
          RelPermitLaws(c, s, i, pc, env, s', id, l, rest);
        } else {
          DisposeLaws(c, s, i, pc, env, s', id, l, rest);
        }
      }
    }
    BalancedKeeps(c, s, s', i, t, spawned);
  }

  lemma ContextKeeps(c: Config, s: State, i: nat)
    requires Inv(c, s) && i < |s.tasks| && s.tasks[i].Releasing? && !s.tasks[i].context.CtxLock?
    ensures Inv(c, ContextStep(s, i, s.tasks[i].context))
  {
    hide Inv, Laws, TaskSums;
    var pc := s.tasks[i].context;
    var s' := ContextStep(s, i, pc);
    var t := s'.tasks[i];
    TaskIsOk(c, s, i);
    var drains := pc.CtxDrain? && pc.entries != [];
    var spawned := if drains then [Disposer(Closing(pc.entries[0].cargo.inst))] else [];
    forall id, l, rest ensures Balanced(c, s, s', i, t, spawned, id, l, rest) {
      if Laws(c, s, id, l, Plus(rest, TaskSums(s.tasks[i], id, l))) {
        if drains {
          DrainLaws(c, s, i, pc, id, l, rest);
        } else {
          ContextLaws(c, s, i, pc, id, l, rest);
        }
      }
    }
    BalancedKeeps(c, s, s', i, t, spawned);
  }

  lemma EvictKeeps(c: Config, s: State, i: nat)
    requires Inv(c, s) && i < |s.tasks| && s.tasks[i].Sweeping?
    ensures Inv(c, EvictStep(s, i, s.tasks[i].sweep))
  {
    hide Inv, Laws, TaskSums;
    var pc := s.tasks[i].sweep;
    var s' := EvictStep(s, i, pc);
    var t := s'.tasks[i];
    var evicts := pc.Evict? && pc.entries != [];
    var spawned := if evicts then [Disposer(EvictClosing(pc.entries[0].cargo.inst))] else [];
    forall id, l, rest ensures Balanced(c, s, s', i, t, spawned, id, l, rest) {
      if Laws(c, s, id, l, Plus(rest, TaskSums(s.tasks[i], id, l))) {
        if evicts {
          EvictLaws(c, s, i, pc, id, l, rest);
        } else {
          EvictCountLaws(c, s, i, pc, id, l, rest);
        }
      }
    }
    BalancedKeeps(c, s, s', i, t, spawned);
  }

  lemma CancelKeeps(c: Config, s: State, i: nat, s': State)
    requires Inv(c, s) && i < |s.tasks| && CancelStep(s, i) == Some(s')
    ensures Inv(c, s')
  {
    hide Inv, Laws, TaskSums;
    forall id, l, rest ensures Balanced(c, s, s', i, Done, [], id, l, rest) {
      if Laws(c, s, id, l, Plus(rest, TaskSums(s.tasks[i], id, l))) {
        if s.tasks[i].Launching? {
          CancelLaunchLaws(c, s, i, s', id, l, rest);
        } else if s.tasks[i].Held? {
          CancelReleaseLaws(c, s, i, s', id, l, rest);
        } else {
          CancelIdleLaws(c, s, i, s', id, l, rest);
        }
      }
    }
    BalancedKeeps(c, s, s', i, Done, []);
  }

  // ---------------------------------------------------------------- steps under the lock

  /** Nothing but a queue and the task at `i` changes, and together they hold what they held before. */
  lemma QueueKeeps(c: Config, s: State, s': State, i: nat, t: Task, ctx: Option<Context>, q: seq<Entry>)
    requires Inv(c, s) && i < |s.tasks| && TaskOk(s.born, t) && QueueOk(s.born, ctx, q, s.now)
    requires s' == s.(shared := s'.shared, scoped := s'.scoped, tasks := s.tasks[i := t])
    requires GetQueue(s', ctx) == q
    requires ctx.None? ==> s'.scoped == s.scoped
    requires ctx.Some? ==> s'.shared == s.shared && s'.scoped - {ctx.value} == s.scoped - {ctx.value}
    requires forall id, l :: Plus(QueueSums(GetQueue(s, ctx), id, l), TaskSums(s.tasks[i], id, l))
                             == Plus(QueueSums(q, id, l), TaskSums(t, id, l))
    ensures Inv(c, s')
  {
    hide TaskSums, QueueSums, Totals;
    TasksKeep(s, s', i, t, []);
    assert QueuesOk(s') by {
      forall k | k in s'.scoped ensures QueueOk(s'.born, Some(k), s'.scoped[k], s'.now) {
        if ctx != Some(k) {
          assert k in s'.scoped - (if ctx.Some? then {ctx.value} else {});
          assert k in s.scoped && s'.scoped[k] == s.scoped[k];
        }
      }
    }
    forall id: nat, l: nat ensures LawsAt(c, s', id, l) {
      assert LawsAt(c, s, id, l);
      var rest := QueueStep(s, s', i, t, [], ctx, q, id, l);
      assert Plus(QueueSums(GetQueue(s, ctx), id, l), TaskSums(s.tasks[i], id, l))
          == Plus(QueueSums(q, id, l), TaskSums(t, id, l));
    }
  }

  /** An entry goes to the back of a queue, and the task that held it is over. */
  lemma PushKeeps(c: Config, s: State, i: nat, ctx: Option<Context>, cargo: Cargo, t: Task, s': State)
    requires Inv(c, s) && i < |s.tasks|
    requires forall id, l :: TaskSums(s.tasks[i], id, l) == TaskSums(Held(Handle(ctx, cargo)), id, l)
    requires forall id, l :: TaskSums(t, id, l) == Sums(0, 0, 0, 0, 0)
    requires CargoOk(s.born, ctx, cargo) && cargo.inst.healthy && TaskOk(s.born, t)
    requires s' == Become(SetQueue(s, ctx, GetQueue(s, ctx) + [Entry(cargo, s.now)]), i, t, [])
    ensures Inv(c, s')
  {
    hide TaskSums, QueueSums, Inv, LawsAt;
    var e := Entry(cargo, s.now);
    var q := GetQueue(s, ctx) + [e];
    QueueIsOk(c, s, ctx);
    if ctx.Some? {
      assert s.scoped[ctx.value := q] - {ctx.value} == s.scoped - {ctx.value};
    }
    forall id, l
      ensures Plus(QueueSums(GetQueue(s, ctx), id, l), TaskSums(s.tasks[i], id, l))
           == Plus(QueueSums(q, id, l), TaskSums(t, id, l))
    {
      QueueAppend(GetQueue(s, ctx), e, ctx, id, l);
    }
    QueueKeeps(c, s, s', i, t, ctx, q);
  }

  lemma QueueIsOk(c: Config, s: State, ctx: Option<Context>)
    requires Inv(c, s)
    ensures QueueOk(s.born, ctx, GetQueue(s, ctx), s.now)
  {
  }

  /** A task without holdings takes the head of a queue. */
  lemma PopKeeps(c: Config, s: State, i: nat, ctx: Option<Context>, t: Task, s': State)
    requires Inv(c, s) && i < |s.tasks| && TaskOk(s.born, t) && GetQueue(s, ctx) != []
    requires forall id, l :: TaskSums(s.tasks[i], id, l) == Sums(0, 0, 0, 0, 0)
    requires forall id, l :: TaskSums(t, id, l) == TaskSums(Held(Handle(ctx, GetQueue(s, ctx)[0].cargo)), id, l)
    requires s' == Become(PutBack(s, ctx, GetQueue(s, ctx)[1..]), i, t, [])
    ensures Inv(c, s')
  {
    hide TaskSums, QueueSums, Inv, LawsAt;
    var q := GetQueue(s, ctx);
    QueueIsOk(c, s, ctx);
    if ctx.Some? {
      assert s.scoped[ctx.value := q[1..]] - {ctx.value} == s.scoped - {ctx.value};
    }
    forall id, l
      ensures Plus(QueueSums(q, id, l), TaskSums(s.tasks[i], id, l))
           == Plus(QueueSums(q[1..], id, l), TaskSums(t, id, l))
    {
      HeadSums(q, ctx, id, l);
    }
    QueueKeeps(c, s, s', i, t, ctx, q[1..]);
  }

  lemma HeadSums(q: seq<Entry>, ctx: Option<Context>, id: nat, l: nat)
    requires q != []
    ensures QueueSums(q, id, l) == Plus(QueueSums(q[1..], id, l), TaskSums(Held(Handle(ctx, q[0].cargo)), id, l))
  {
    hide EntriesW;
    EntriesHead(Slot, q);
    EntriesHead(Counted, q);
    EntriesHead(OfInst(id), q);
    EntriesHead(Serving(l), q);
    EntriesHead(Leaving(l), q);
  }

  lemma WarmPushKeeps(c: Config, s: State, i: nat, env: Env, s': State)
    requires Inv(c, s) && i < |s.tasks| && s.tasks[i].Warm? && s.tasks[i].warm.WarmPush?
    requires WarmStep(c, s, i, s.tasks[i].warm, env) == Some(s')
    ensures Inv(c, s')
  {
    var pc := s.tasks[i].warm;
    TaskIsOk(c, s, i);
    PushKeeps(c, s, i, None, pc.cargo, Warm(WarmNext(pc.i + 1)), s');
  }

  lemma FastWeighsNothing(ctx: Option<Context>, active: nat, id: nat, l: nat)
    ensures TaskSums(Acq(Fast(ctx, active)), id, l) == Sums(0, 0, 0, 0, 0)
    ensures TaskSums(Acq(Dispose(ctx, active, None, [])), id, l) == Sums(0, 0, 0, 0, 0)
  {
  }

  lemma FoundWeighsAsHandle(ctx: Option<Context>, active: nat, cargo: Cargo, id: nat, l: nat)
    ensures TaskSums(Acq(Dispose(ctx, active, Some(cargo), [])), id, l) == TaskSums(Held(Handle(ctx, cargo)), id, l)
  {
  }

  lemma FastKeeps(c: Config, s: State, i: nat, env: Env, s': State)
    requires Inv(c, s) && i < |s.tasks| && s.tasks[i].Acq? && s.tasks[i].acq.Fast?
    requires AcquireStep(c, s, i, s.tasks[i].acq, env) == Some(s')
    ensures Inv(c, s')
  {
    hide FastPop, Inv, LawsAt, TaskSums, QueueSums;
    var pc := s.tasks[i].acq;
    var q := GetQueue(s, pc.ctx);
    QueueIsOk(c, s, pc.ctx);
    HealthyPop(q);
    var t := Acq(Dispose(pc.ctx, pc.active, if q == [] then None else Some(q[0].cargo), []));
    forall id, l ensures TaskSums(s.tasks[i], id, l) == Sums(0, 0, 0, 0, 0) {
      FastWeighsNothing(pc.ctx, pc.active, id, l);
    }
    if q == [] {
      forall id, l ensures TaskSums(t, id, l) == Sums(0, 0, 0, 0, 0) {
        FastWeighsNothing(pc.ctx, pc.active, id, l);
      }
      if pc.ctx.Some? {
        assert s'.scoped == s.scoped;
      }
      QueueKeeps(c, s, s', i, t, pc.ctx, []);
    } else {
      forall id, l ensures TaskSums(t, id, l) == TaskSums(Held(Handle(pc.ctx, q[0].cargo)), id, l) {
        FoundWeighsAsHandle(pc.ctx, pc.active, q[0].cargo, id, l);
      }
      PopKeeps(c, s, i, pc.ctx, t, s');
    }
  }

  lemma PollKeeps(c: Config, s: State, i: nat, env: Env, s': State)
    requires Inv(c, s) && i < |s.tasks| && s.tasks[i].Acq? && s.tasks[i].acq.Poll?
    requires AcquireStep(c, s, i, s.tasks[i].acq, env) == Some(s')
    ensures Inv(c, s')
  {
    var pc := s.tasks[i].acq;
    var q := GetQueue(s, pc.ctx);
    QueueIsOk(c, s, pc.ctx);
    if env == Timeout {
      QueueKeeps(c, s, s', i, Done, None, s.shared);
    } else if q != [] {
      PopKeeps(c, s, i, pc.ctx, Held(Handle(pc.ctx, q[0].cargo)), s');
    }
  }

  /** A task with a unit of capacity in its hands leaves room in the idle queues. */
  lemma RoomForHeld(c: Config, s: State, i: nat)
    requires Inv(c, s) && i < |s.tasks| && TaskW(Slot, s.tasks[i]) == 1
    ensures TotalIdle(s) < c.max
  {
    assert LawsAt(c, s, 0, 0);
    TasksSplit(Slot, s.tasks, i);
    EntriesSlots(s.shared);
    ScopedSlots(s.scoped);
  }

  lemma RelLockKeeps(c: Config, s: State, i: nat, env: Env, s': State)
    requires Inv(c, s) && i < |s.tasks| && s.tasks[i].Held? && s.tasks[i].held.RelLock?
    requires ReleaseStep(c, s, i, s.tasks[i].held, env) == Some(s')
    ensures Inv(c, s')
  {
    var pc := s.tasks[i].held;
    TaskIsOk(c, s, i);
    RoomForHeld(c, s, i);
    PushKeeps(c, s, i, pc.ctx, pc.cargo, Done, s');
  }

  /** `release_context` takes the whole queue of its context. */
  lemma CtxLockKeeps(c: Config, s: State, i: nat)
    requires Inv(c, s) && i < |s.tasks| && s.tasks[i].Releasing? && s.tasks[i].context.CtxLock?
    ensures Inv(c, ContextStep(s, i, s.tasks[i].context))
  {
    var pc := s.tasks[i].context;
    var s' := ContextStep(s, i, pc);
    var q := GetQueue(s, Some(pc.id));
    QueueIsOk(c, s, Some(pc.id));
    assert s'.scoped - {pc.id} == s.scoped - {pc.id};
    QueueKeeps(c, s, s', i, Releasing(CtxDrain(pc.id, q)), Some(pc.id), []);
  }
}
