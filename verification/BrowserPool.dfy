/**
 The pool object and the code that runs under its lock, loops included. Each method is proved to
 take exactly the step of the state machine in `PoolModel`, so what `PoolTheorems` says about
 steps and runs is said about this code.
 */
module BrowserPool {
  import opened Options
  import opened PoolModel
  import opened PoolMeasure
  import opened PoolRuns
  import opened PoolSoloSweep
  import opened PoolContext

  // ---------------------------------------------------------------- loops over one queue

  lemma SkipUnhealthy(q: seq<Entry>, n: nat)
    requires n < |q|
    ensures NextHealthy(q, n) == if q[n].cargo.inst.healthy then n else NextHealthy(q, n + 1)
  {
  }

  lemma Thrown(q: seq<Entry>, k: nat, n: nat)
    requires k <= n < |q|
    ensures q[k..n] + [q[n]] == q[k..n + 1]
    ensures q[..n] + [q[n]] == q[..n + 1]
  {
  }

  lemma CargosSnoc(q: seq<Entry>, e: Entry)
    ensures Cargos(q + [e]) == Cargos(q) + [e.cargo]
  {
  }

  /** The pop loop of the fast path, for any health flags. */
  method PopHealthy(q: seq<Entry>) returns (healthy: Option<Cargo>, unhealthy: seq<Cargo>, queue: seq<Entry>)
    ensures Popped(healthy, unhealthy, queue) == FastPop(q)
  {
    hide Cargos, NextHealthy;
    healthy, unhealthy, queue := None, [], q;
    ghost var n, k, thrown := 0, 0, [];
    NoCargos();
    while queue != []
      invariant n <= |q| && queue == q[n..] && unhealthy == Cargos(thrown)
      invariant healthy.None? ==> NextHealthy(q, 0) == NextHealthy(q, n) && thrown == q[..n]
      invariant healthy.Some? ==> k < n && NextHealthy(q, 0) == k && healthy.value == q[k].cargo
      invariant healthy.Some? ==> NextHealthy(q, k + 1) == NextHealthy(q, n) && thrown == q[..k] + q[k + 1..n]
      decreases |queue|
    {
      var entry := queue[0];
      queue := queue[1..];
      SkipUnhealthy(q, n);
      Thrown(q, if healthy.Some? then k + 1 else 0, n);
      if healthy.None? && entry.cargo.inst.healthy {
        healthy := Some(entry.cargo);
        k := n;
      } else if !entry.cargo.inst.healthy {
        CargosSnoc(thrown, entry);
        unhealthy := unhealthy + [entry.cargo];
        thrown := thrown + [entry];
      } else {
        queue := [entry] + queue;
        break;
      }
      n := n + 1;
    }
    if queue == [] {
      NextHealthyIsFirst(q, n);
    }
  }

  lemma NoCargos()
    ensures Cargos([]) == []
  {
  }

  lemma SweepSnoc(q: seq<Entry>, n: nat, budget: nat, now: nat, idleTimeout: nat)
    requires n < |q|
    ensures var r := SweepQueue(q[..n], budget, now, idleTimeout);
            SweepQueue(q[..n + 1], budget, now, idleTimeout)
            == if |r.evicted| < budget && Expired(q[n], now, idleTimeout)
               then Swept(r.kept, r.evicted + [q[n]]) else Swept(r.kept + [q[n]], r.evicted)
  {
    assert q[..n + 1][..n] == q[..n];
  }

  /** One more scoped queue is swept; a key without a queue changes nothing. */
  lemma SweepScopedSnoc(m: map<Context, seq<Entry>>, order: seq<Context>, n: nat, budget: nat, now: nat,
                        idleTimeout: nat, scoped: map<Context, seq<Entry>>, out: seq<Entry>, one: Swept)
    requires n < |order| && |out| <= budget
    requires SweptScoped(scoped, out) == SweepScoped(m, order[..n], budget, now, idleTimeout)
    requires order[n] in scoped ==> one == SweepQueue(scoped[order[n]], budget - |out|, now, idleTimeout)
    ensures SweepScoped(m, order[..n + 1], budget, now, idleTimeout)
         == if order[n] in scoped then SweptScoped(scoped[order[n] := one.kept], out + one.evicted)
            else SweptScoped(scoped, out)
  {
    hide SweepQueue;
    assert order[..n + 1][..n] == order[..n];
  }

  lemma NoneSwept(m: map<Context, seq<Entry>>, budget: nat, now: nat, idleTimeout: nat)
    ensures SweepScoped(m, [], budget, now, idleTimeout) == SweptScoped(m, [])
  {
  }

  /** The keys of a hash map in some order. */
  method KeysOf(m: map<Context, seq<Entry>>) returns (order: seq<Context>)
    ensures IsOrderOf(order, m)
  {
    order := [];
    var left := m.Keys;
    while left != {}
      invariant left <= m.Keys
      invariant forall j, k :: 0 <= j < k < |order| ==> order[j] != order[k]
      invariant forall j :: 0 <= j < |order| ==> order[j] in m && order[j] !in left
      invariant forall id :: id in m ==> id in order || id in left
      decreases |left|
    {
      var id :| id in left;
      left := left - {id};
      order := order + [id];
    }
  }

  lemma ScopedIdleWithout(m: map<Context, seq<Entry>>, id: Context)
    requires id in m
    ensures ScopedIdle(m) == |m[id]| + ScopedIdle(m - {id})
  {
    ScopedSlots(m);
    ScopedSlots(m - {id});
    ScopedSplit(Slot, m, id);
    EntriesSlots(m[id]);
  }

  /** The sum of the queue lengths that a release and a sweep compute under the lock. */
  method CountIdle(shared: seq<Entry>, scoped: map<Context, seq<Entry>>) returns (total: nat)
    ensures total == |shared| + ScopedIdle(scoped)
  {
    total := |shared|;
    var left := scoped;
    while left.Keys != {}
      invariant total + ScopedIdle(left) == |shared| + ScopedIdle(scoped)
      decreases |left.Keys|
    {
      var id :| id in left.Keys;
      ScopedIdleWithout(left, id);
      assert (left - {id}).Keys == left.Keys - {id};
      total := total + |left[id]|;
      left := left - {id};
    }
  }

  // ---------------------------------------------------------------- the object

  class BrowserPool {
    const config: Config
    var permits: nat                          // semaphore
    var active: nat                           // active_count
    var shared: seq<Entry>                    // inner.shared
    var scoped: map<Context, seq<Entry>>      // inner.scoped
    var tasks: seq<Task>                      // what runs on the runtime
    var locked: bool                          // a sweep holds the lock
    var now: nat                              // the clock
    var leases: map<nat, LeaseLog>            // what the proxy source has seen
    ghost var born: map<nat, Origin>
    ghost var gone: set<nat>
    ghost var evicted: nat
    ghost var abandoned: nat

    ghost function Abs(): State
      reads this
    {
      State(permits, active, shared, scoped, tasks, locked, now, leases, born, gone, evicted, abandoned)
    }

    /** A new pool: all permits, no browser, the warm-up about to start. */
    constructor (config: Config)
      ensures this.config == config && Abs() == Init(config)
    {
      this.config := config;
      permits, active := config.max, 0;
      shared, scoped := [], map[];
      tasks, locked, now, leases := [Warm(WarmNext(0))], false, 0, map[];
      born, gone, evicted, abandoned := map[], {}, 0, 0;
    }

    /**
     One turn of the warm-up loop; `bound` is the lease the proxy source grants, `launched` the
     browser that Chrome comes up with. The turn is a run of the warm-up task, and `stop` says that
     there was no permit left for it.
     */
    method WarmOne(n: nat, bound: Option<nat>, launched: Option<nat>)
      returns (stop: bool, ghost events: seq<Event>)
      requires tasks == [Warm(WarmNext(n))] && n < config.min
      requires bound.Some? ==> bound.value !in leases
      requires launched.Some? ==> launched.value !in born
      modifies `permits, `active, `shared, `tasks, `leases, `born
      ensures Exec(config, old(Abs()), events) == Some(Abs())
      ensures permits + active == old(permits + active)
      ensures tasks == if stop then [Done] else [Warm(WarmNext(n + 1))]
      ensures stop <==> old(permits) == 0 && (config.proxied ==> bound.Some?)
      ensures |shared| - old(|shared|) == active - old(active)
           == if (config.proxied ==> bound.Some?) && launched.Some? && old(permits) > 0 then 1 else 0
      ensures forall l :: l in leases ==> l in old(leases) || bound == Some(l)
      ensures forall id :: id in born ==> id in old(born) || launched == Some(id)
    {
      hide Exec, RunStep, Depart, Drop;
      ghost var s := Abs();
      var lease, failed;
      stop := false;
      lease, failed, events := WarmBind(n, bound);
      if failed {
        return;
      }
      ghost var s1 := Abs();
      PermitStep(config, s1, n, lease);
      if permits == 0 {
        KeysStay(leases, lease, Unused);
        leases := Drop(Depart(leases, lease, Unused), lease);
        tasks := [Done];
        events := Took(s, s1, Quiet, Abs(), events);
        stop := true;
        return;
      }
      permits := permits - 1;
      tasks := [Launching(Count(Warmer(n), lease))];
      events := Took(s, s1, Quiet, Abs(), events);
      ghost var s2 := Abs();
      ghost var rest := WarmLaunch(n, lease, launched);
      ExecAppend(config, s, events, s2, rest, Abs());
      events := events + rest;
    }

    /** The first part of a turn: a proxy is bound, if the pool uses any. */
    method WarmBind(n: nat, bound: Option<nat>) returns (lease: Option<nat>, failed: bool, ghost events: seq<Event>)
      requires tasks == [Warm(WarmNext(n))] && n < config.min
      requires bound.Some? ==> bound.value !in leases
      modifies `tasks, `leases
      ensures Exec(config, old(Abs()), events) == Some(Abs())
      ensures failed <==> config.proxied && bound.None?
      ensures tasks == [Warm(if failed then WarmNext(n + 1) else WarmPermit(n, lease))]
      ensures forall l :: l in leases ==> l in old(leases) || bound == Some(l)
    {
      hide Exec, RunStep;
      ghost var s := Abs();
      ExecNone(config, s);
      BindStep(config, s, n, bound);
      lease, failed := None, false;
      ghost var answer := Quiet;
      if config.proxied {
        if bound.None? {
          failed := true;
          tasks := [Warm(WarmNext(n + 1))];
          events := Took(s, s, BindFailed, Abs(), []);
          return;
        }
        lease, answer := bound, Bound(bound.value);
        leases := leases[bound.value := LeaseLog(0, 0, None)];
      }
      tasks := [Warm(WarmPermit(n, lease))];
      events := Took(s, s, answer, Abs(), []);
    }

    /** The part of a turn that owns a permit: count, launch, and queue or undo. */
    method WarmLaunch(n: nat, lease: Option<nat>, launched: Option<nat>) returns (ghost events: seq<Event>)
      requires tasks == [Launching(Count(Warmer(n), lease))]
      requires launched.Some? ==> launched.value !in born
      modifies `permits, `active, `shared, `tasks, `leases, `born
      ensures Exec(config, old(Abs()), events) == Some(Abs())
      ensures tasks == [Warm(WarmNext(n + 1))]
      ensures permits == old(permits) + (if launched.Some? then 0 else 1)
      ensures active == old(active) + (if launched.Some? then 1 else 0)
      ensures |shared| == |old(shared)| + (if launched.Some? then 1 else 0)
      ensures leases.Keys == old(leases.Keys)
      ensures forall id :: id in born ==> id in old(born) || launched == Some(id)
    {
      hide Exec, RunStep, Depart, Drop;
      ghost var s := Abs();
      ExecNone(config, s);
      CountStep(config, s, n, lease);
      active := active + 1;
      tasks := [Launching(Launch(Warmer(n), lease))];
      events := Took(s, s, Quiet, Abs(), []);
      ghost var s3 := Abs();
      if launched.Some? {
        LaunchedStep(config, s3, n, lease, launched.value);
        var cargo := Cargo(Instance(launched.value, true), lease);
        born := born[launched.value := Origin(None, lease)];
        tasks := [Warm(WarmPush(n, cargo))];
        events := Took(s, s3, Launched(launched.value), Abs(), events);
        ghost var s4 := Abs();
        PushStep(config, s4, n, cargo);
        shared := shared + [Entry(cargo, now)];
        tasks := [Warm(WarmNext(n + 1))];
        events := Took(s, s4, Quiet, Abs(), events);
      } else {
        LaunchErrorStep(config, s3, n, lease);
        KeysStay(leases, lease, LaunchFailed);
        leases := Depart(leases, lease, LaunchFailed);
        tasks := [Launching(Uncount(Warmer(n), lease))];
        events := Took(s, s3, LaunchError, Abs(), events);
        ghost var s4 := Abs();
        ghost var rest := WarmUndo(n, lease);
        ExecAppend(config, s, events, s4, rest, Abs());
        events := events + rest;
      }
    }

    /** After a failed launch the counter and the permit go back. */
    method WarmUndo(n: nat, lease: Option<nat>) returns (ghost events: seq<Event>)
      requires tasks == [Launching(Uncount(Warmer(n), lease))] && active > 0
      modifies `permits, `active, `tasks, `leases
      ensures Exec(config, old(Abs()), events) == Some(Abs())
      ensures tasks == [Warm(WarmNext(n + 1))]
      ensures permits == old(permits) + 1 && active == old(active) - 1 && leases == Drop(old(leases), lease)
    {
      hide Exec, RunStep, Drop;
      ghost var s := Abs();
      ExecNone(config, s);
      UncountStep(config, s, n, lease);
      active := FetchSub(active);
      tasks := [Launching(Unpermit(Warmer(n), lease))];
      events := Took(s, s, Quiet, Abs(), []);
      ghost var s5 := Abs();
      UnpermitStep(config, s5, n, lease);
      permits := permits + 1;
      leases := Drop(leases, lease);
      tasks := [Warm(WarmNext(n + 1))];
      events := Took(s, s5, Quiet, Abs(), events);
    }

    /** The run from `s` to `before`, and the step of the only task from there to `after`. */
    ghost method Took(s: State, before: State, env: Env, after: State, events: seq<Event>) returns (more: seq<Event>)
      requires Exec(config, s, events) == Some(before) && |before.tasks| == 1
      requires RunStep(config, before, 0, env) == Some(after)
      ensures Exec(config, s, more) == Some(after)
    {
      hide RunStep;
      ExecSnoc(config, s, events, before, Run(0, env), after);
      more := events + [Run(0, env)];
    }

    /**
     `warmup_pool`. Failures are not fatal: the pool just starts smaller. Every browser it starts
     with is idle, and permits and active browsers make up the maximum.
     */
    method WarmUp(bind: nat -> Option<nat>, launch: nat -> Option<nat>) returns (ghost events: seq<Event>)
      requires Abs() == Init(config)
      requires forall i: nat, j: nat :: i < j && bind(i).Some? ==> bind(i) != bind(j)
      requires forall i: nat, j: nat :: i < j && launch(i).Some? ==> launch(i) != launch(j)
      modifies `permits, `active, `shared, `tasks, `leases, `born
      ensures Exec(config, Init(config), events) == Some(Abs()) && WarmedUp(Abs()) && |tasks| == 1
      ensures permits + active == config.max && active == |shared| <= config.min
      ensures (forall i: nat :: i < config.min ==> launch(i).Some? && (config.proxied ==> bind(i).Some?)) ==>
                |shared| == Min(config.min, config.max)
    {
      hide Exec, RunStep;
      ghost var start := Abs();
      events := [];
      ExecNone(config, start);
      var i := 0;
      while i < config.min
        invariant i <= config.min && tasks == [Warm(WarmNext(i))]
        invariant Exec(config, start, events) == Some(Abs())
        invariant permits + active == config.max && active == |shared| <= i
        invariant forall l :: l in leases ==> exists j :: 0 <= j < i && bind(j) == Some(l)
        invariant forall id :: id in born ==> exists j :: 0 <= j < i && launch(j) == Some(id)
        invariant (forall k: nat :: k < config.min ==> launch(k).Some? && (config.proxied ==> bind(k).Some?)) ==>
                    active == i
      {
        ghost var before := Abs();
        var stop;
        ghost var more;
        stop, more := WarmOne(i, bind(i), launch(i));
        ExecAppend(config, start, events, before, more, Abs());
        events := events + more;
        if stop {
          return;
        }
        i := i + 1;
      }
      ghost var before := Abs();
      WarmEndStep(config, before, i);
      tasks := [Done];
      events := Took(start, before, Quiet, Abs(), events);
    }

    /** The locked block of `acquire_inner`. */
    method FastPath(i: nat)
      requires !locked && i < |tasks| && tasks[i].Acq? && tasks[i].acq.Fast?
      modifies `shared, `scoped, `tasks
      ensures Next(config, old(Abs()), Run(i, Quiet)) == Some(Abs())
    {
      var ctx, active := tasks[i].acq.ctx, tasks[i].acq.active;
      var healthy, unhealthy := None, [];
      match ctx {
        case None =>
          healthy, unhealthy, shared := PopHealthy(shared);
        case Some(id) =>
          if id in scoped {
            var rest;
            healthy, unhealthy, rest := PopHealthy(scoped[id]);
            scoped := scoped[id := rest];
          }
      }
      tasks := tasks[i := Acq(Dispose(ctx, active, healthy, unhealthy))] + [];
    }

    /** One turn of the loop of `poll_for_release`. */
    method PollOnce(i: nat)
      requires !locked && i < |tasks| && tasks[i].Acq? && tasks[i].acq.Poll?
      modifies `shared, `scoped, `tasks
      ensures Next(config, old(Abs()), Run(i, Quiet)) == Some(Abs())
    {
      var ctx := tasks[i].acq.ctx;
      var popped: Option<Entry> := None;
      match ctx {
        case None =>
          if shared != [] {
            popped, shared := Some(shared[0]), shared[1..];
          }
        case Some(id) =>
          if id in scoped && scoped[id] != [] {
            popped, scoped := Some(scoped[id][0]), scoped[id := scoped[id][1..]];
          }
      }
      if popped.Some? {
        if popped.value.cargo.inst.healthy {
          tasks := tasks[i := Held(Handle(ctx, popped.value.cargo))] + [];
        } else {
          tasks := tasks[i := Acq(PollDispose(ctx, popped.value.cargo))] + [];
        }
      }
    }

    /** The locked block of `release`. */
    method ReturnToQueue(i: nat)
      requires !locked && i < |tasks| && tasks[i].Held? && tasks[i].held.RelLock?
      modifies `shared, `scoped, `tasks, `leases
      ensures Next(config, old(Abs()), Run(i, Quiet)) == Some(Abs())
    {
      var ctx, cargo := tasks[i].held.ctx, tasks[i].held.cargo;
      var totalIdle := CountIdle(shared, scoped);
      if totalIdle < config.max {
        var entry := Entry(cargo, now);
        match ctx {
          case None => shared := shared + [entry];
          case Some(id) =>
            scoped := scoped[id := (if id in scoped then scoped[id] else []) + [entry]];
        }
        tasks := tasks[i := Done] + [];
      } else {
        leases := Mark(Depart(leases, cargo.lease, PoolFull), cargo.lease);
        tasks := tasks[i := Held(RelDispose(ctx, cargo))] + [];
      }
    }

    /** The locked block of `release_context`. */
    method TakeContext(i: nat) returns (count: nat)
      requires !locked && i < |tasks| && tasks[i].Releasing? && tasks[i].context.CtxLock?
      modifies `scoped, `tasks
      ensures Next(config, old(Abs()), Run(i, Quiet)) == Some(Abs())
      ensures count == |GetQueue(old(Abs()), Some(old(tasks[i].context.id)))|
    {
      var id := tasks[i].context.id;
      var entries := if id in scoped then scoped[id] else [];
      scoped := scoped - {id};
      tasks := tasks[i := Releasing(CtxDrain(id, entries))] + [];
      count := |entries|;
    }

    /** `release_context`: the whole queue goes, browser by browser, and the caller learns how many there were. */
    method ReleaseContext(i: nat) returns (count: nat)
      requires !locked && Takes(Abs(), i)
      modifies `permits, `scoped, `tasks, `leases
      ensures count == |GetQueue(old(Abs()), Some(old(tasks[i].context.id)))|
      ensures Abs() == AfterRelease(old(Abs()), i, old(tasks[i].context.id))
      ensures Exec(config, old(Abs()), ContextEvents(i, count)) == Some(Abs())
    {
      hide Exec, ClearLeases, Closings, Depart, Mark, Drop, Released;
      ghost var before := Abs();
      var id := tasks[i].context.id;
      var entries := if id in scoped then scoped[id] else [];
      scoped := scoped - {id};
      tasks := tasks[i := Done];
      count := |entries|;
      NoneReleased(before, i, id, entries);
      for k := 0 to |entries|
        invariant Abs() == Released(before, i, id, entries, k)
      {
        var cargo := entries[k].cargo;
        ReleasedSnoc(before, i, id, entries, k);
        leases := Mark(Depart(leases, cargo.lease, ContextReleased), cargo.lease);
        tasks := tasks + [Disposer(Closing(cargo.inst))];
        permits := permits + 1;
        leases := Drop(leases, cargo.lease);
      }
      ReleaseContextRuns(config, before, i);
    }

    /** The inner loop of a sweep: pops everything, evicts what it may, keeps the rest in order. */
    method EvictFrom(queue: seq<Entry>, budget: nat) returns (kept: seq<Entry>, out: seq<Entry>)
      requires budget <= active
      modifies `active, `leases, `tasks, `evicted
      ensures Swept(kept, out) == SweepQueue(queue, budget, now, config.idleTimeout)
      ensures active == old(active) - |out| && evicted == old(evicted) + |out|
      ensures leases == ClearLeases(old(leases), out, Evicted)
      ensures tasks == old(tasks) + Shutdowns(out)
    {
      hide SweepQueue, ClearLeases, Shutdowns, Depart, Mark, Drop;
      kept, out := [], [];
      NothingSwept(leases, budget, now, config.idleTimeout);
      var left := queue;
      ghost var n := 0;
      while left != []
        invariant n <= |queue| && left == queue[n..]
        invariant Swept(kept, out) == SweepQueue(queue[..n], budget, now, config.idleTimeout)
        invariant active == old(active) - |out| && evicted == old(evicted) + |out|
        invariant leases == ClearLeases(old(leases), out, Evicted)
        invariant tasks == old(tasks) + Shutdowns(out)
        decreases |left|
      {
        var entry := left[0];
        left := left[1..];
        SweepSnoc(queue, n, budget, now, config.idleTimeout);
        n := n + 1;
        if |out| < budget && Expired(entry, now, config.idleTimeout) {
          ClearLeasesSnoc(old(leases), out, entry, Evicted);
          ShutdownsAppend(out, [entry]);
          ShutdownsOne(entry);
          leases := Drop(Mark(Depart(leases, entry.cargo.lease, Evicted), entry.cargo.lease), entry.cargo.lease);
          tasks := tasks + [Disposer(EvictClosing(entry.cargo.inst))];
          active := FetchSub(active);
          evicted := evicted + 1;
          out := out + [entry];
        } else {
          kept := kept + [entry];
        }
      }
      assert queue[..n] == queue;
    }

    /** The part of a sweep that visits the scoped queues. */
    method EvictScoped(budget: nat) returns (order: seq<Context>, out: seq<Entry>)
      requires budget <= active
      modifies `active, `leases, `tasks, `evicted, `scoped
      ensures IsOrderOf(order, old(scoped))
      ensures SweptScoped(scoped, out) == SweepScoped(old(scoped), order, budget, now, config.idleTimeout)
      ensures active == old(active) - |out| && evicted == old(evicted) + |out|
      ensures leases == ClearLeases(old(leases), out, Evicted)
      ensures tasks == old(tasks) + Shutdowns(out)
    {
      hide SweepQueue, SweepScoped, ClearLeases, Shutdowns, IsOrderOf;
      order := KeysOf(scoped);
      out := [];
      NoneSwept(scoped, budget, now, config.idleTimeout);
      NothingSwept(leases, 0, 0, 0);
      var j := 0;
      while j < |order|
        invariant j <= |order|
        invariant SweptScoped(scoped, out) == SweepScoped(old(scoped), order[..j], budget, now, config.idleTimeout)
        invariant active == old(active) - |out| && evicted == old(evicted) + |out|
        invariant leases == ClearLeases(old(leases), out, Evicted)
        invariant tasks == old(tasks) + Shutdowns(out)
      {
        var id := order[j];
        ghost var before, swept, one := scoped, out, Swept([], []);
        if id in scoped {
          var rest, more := EvictFrom(scoped[id], budget - |out|);
          one := Swept(rest, more);
          ClearLeasesCompose(old(leases), out, more, Evicted);
          ShutdownsAppend(out, more);
          scoped := scoped[id := rest];
          out := out + more;
        }
        SweepScopedSnoc(old(scoped), order, j, budget, now, config.idleTimeout, before, swept, one);
        j := j + 1;
      }
      assert order[..j] == order;
    }

    /** What a sweep does between taking the lock and giving it back. */
    method EvictQueues()
      returns (order: seq<Context>, ghost first: seq<Entry>, ghost out: seq<Entry>,
               ghost rest: map<Context, seq<Entry>>)
      modifies `active, `leases, `tasks, `evicted, `shared, `scoped
      ensures IsOrderOf(order, old(scoped))
      ensures Swept(shared, first)
           == SweepQueue(old(shared), Budget(config, old(Abs())), now, config.idleTimeout)
      ensures SweptScoped(rest, out)
           == SweepScoped(old(scoped), order, Budget(config, old(Abs())) - |first|, now, config.idleTimeout)
      ensures scoped == WithoutEmpty(rest) && |first + out| <= old(active)
      ensures active == old(active) - |first + out| && evicted == old(evicted) + |first + out|
      ensures leases == ClearLeases(old(leases), first + out, Evicted)
      ensures tasks == old(tasks) + Shutdowns(first + out)
    {
      hide SweepQueue, SweepScoped, ClearLeases, Shutdowns, ScopedIdle, WithoutEmpty, IsOrderOf;
      var totalIdle := CountIdle(shared, scoped);
      var evictCount := if active > config.min then Min(active - config.min, totalIdle) else 0;
      var kept, gone := EvictFrom(shared, evictCount);
      shared := kept;
      first := gone;
      var more;
      order, more := EvictScoped(evictCount - |gone|);
      rest, out := scoped, more;
      scoped := WithoutEmpty(scoped);
      ClearLeasesCompose(old(leases), first, out, Evicted);
      ShutdownsAppend(first, out);
    }

    /** One turn of the eviction loop: the events of a sweep, none of anyone else's between them. */
    method EvictionSweep() returns (order: seq<Context>, ghost n: nat)
      requires WarmedUp(Abs()) && !locked
      modifies `locked, `active, `leases, `tasks, `evicted, `shared, `scoped
      ensures IsOrderOf(order, old(scoped)) && n == |SweptOut(config, old(Abs()), order)|
      ensures Exec(config, old(Abs()), SweepEvents(order, old(|tasks|), n)) == Some(Abs())
    {
      hide IsOrderOf, SweepQueue, SweepScoped, ClearLeases, Shutdowns, ScopedIdle, Exec, SweptOut, SweepEvents;
      hide WithoutEmpty;
      ghost var before := Abs();
      locked := true;
      var turn := |tasks|;
      tasks := tasks + [Sweeping(Evict([]))];
      assert Budget(config, Abs()) == Budget(config, before);
      ghost var first, out, rest;
      order, first, out, rest := EvictQueues();
      TurnOver(before.tasks, Sweeping(Evict([])), Shutdowns(first + out), Done);
      tasks := tasks[turn := Done];
      locked := false;
      n := |first + out|;
      SweptInTwo(config, before, order, shared, first, rest, out, Abs());
    }
  }
}
