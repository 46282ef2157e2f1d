/** What single callers of the pool can do, as pieces of runs. */
module PoolCallers {
  import opened Options
  import opened PoolModel
  import opened PoolRuns
  import opened PoolMeasure
  import opened PoolInvariant
  import opened PoolSteps

  // ---------------------------------------------------------------- steps

  function Put(s: State, i: nat, t: Task): State
    requires i < |s.tasks|
  {
    s.(tasks := s.tasks[i := t])
  }

  lemma BecomePut(s: State, i: nat, t: Task)
    requires i < |s.tasks|
    ensures Become(s, i, t, []) == Put(s, i, t)
  {
    assert s.tasks[i := t] + [] == s.tasks[i := t];
  }

  /** A step of the task at `i` that spawns nothing. */
  lemma Step(c: Config, s: State, mid: State, i: nat, env: Env, b: State, t: Task)
    requires Leads(c, s, mid) && i < |mid.tasks| && b.tasks == mid.tasks
    requires RunStep(c, mid, i, env) == Some(Become(b, i, t, []))
    ensures Leads(c, s, Put(b, i, t))
  {
    hide Leads, RunStep;
    BecomePut(b, i, t);
    Then(c, s, mid, Run(i, env), Put(b, i, t));
  }

  /** The state in which one more task runs, or the last one has moved. */
  function With(s: State, t: Task): State {
    s.(tasks := s.tasks + [t])
  }

  lemma StepLast(c: Config, start: State, s: State, t: Task, env: Env, b: State, t': Task)
    requires Leads(c, start, With(s, t)) && b.tasks == s.tasks
    requires RunStep(c, With(s, t), |s.tasks|, env) == Some(Become(With(b, t), |s.tasks|, t', []))
    ensures Leads(c, start, With(b, t'))
  {
    hide Leads, RunStep;
    Step(c, start, With(s, t), |s.tasks|, env, With(b, t), t');
    assert (s.tasks + [t])[|s.tasks| := t'] == s.tasks + [t'];
  }

  // ---------------------------------------------------------------- an acquire call

  /** A call comes in and reads the counter. */
  lemma Arrives(c: Config, start: State, s: State, ctx: Option<Context>)
    requires Leads(c, start, s) && WarmedUp(s)
    ensures Leads(c, start, With(s, Acq(Fast(ctx, s.active))))
  {
    hide Leads;
    Then(c, start, s, NewAcquire(ctx), With(s, Acq(Start(ctx))));
    StepLast(c, start, s, Acq(Start(ctx)), Quiet, s, Acq(Fast(ctx, s.active)));
  }

  /** A call that finds no idle browser, and the counter below `max_size`, waits for a permit. */
  lemma Parks(c: Config, start: State, s: State)
    requires Leads(c, start, s) && WarmedUp(s) && !s.locked && s.shared == [] && s.active < c.max
    ensures Leads(c, start, With(s, Acq(Wait(None, s.active))))
  {
    hide Leads;
    Arrives(c, start, s, None);
    assert FastPop([]) == Popped(None, [], []);
    StepLast(c, start, s, Acq(Fast(None, s.active)), Quiet, s, Acq(Dispose(None, s.active, None, [])));
    StepLast(c, start, s, Acq(Dispose(None, s.active, None, [])), Quiet, s, Acq(Wait(None, s.active)));
  }

  function LeaseOf(c: Config, n: nat): Option<nat> {
    if c.proxied then Some(n) else None
  }

  function CargoOf(c: Config, n: nat): Cargo {
    Cargo(Instance(n, true), LeaseOf(c, n))
  }

  /** The task at `p` waits for a permit. */
  predicate AwaitsPermit(s: State, p: nat) {
    p < |s.tasks| && s.tasks[p].Acq? && s.tasks[p].acq.Wait?
  }

  /** The state in which the caller at `p` has counted itself and has bound lease `n` if the pool uses proxies. */
  function Counted(c: Config, s: State, n: nat, p: nat): State
    requires AwaitsPermit(s, p) && s.permits > 0
  {
    Put(s.(permits := s.permits - 1, active := s.active + 1,
           leases := if c.proxied then s.leases[n := LeaseLog(0, 0, None)] else s.leases),
        p, Launching(Launch(Acquirer(s.tasks[p].acq.ctx), LeaseOf(c, n))))
  }

  /** The state in which the caller at `p` holds browser `n`. */
  function Holding(c: Config, s: State, n: nat, p: nat): State
    requires AwaitsPermit(s, p) && s.permits > 0
  {
    var ctx := s.tasks[p].acq.ctx;
    Put(s.(permits := s.permits - 1, active := s.active + 1,
           leases := if c.proxied then s.leases[n := LeaseLog(0, 0, None)] else s.leases,
           born := s.born[n := Origin(ctx, LeaseOf(c, n))]),
        p, Held(Handle(ctx, CargoOf(c, n))))
  }

  /** A caller that waits takes a permit, counts itself and binds a proxy. */
  lemma Counts(c: Config, start: State, s: State, n: nat, p: nat)
    requires Leads(c, start, s) && AwaitsPermit(s, p) && s.permits > 0 && n !in s.leases
    ensures Leads(c, start, Counted(c, s, n, p))
  {
    hide Leads;
    var ctx := s.tasks[p].acq.ctx;
    var b1 := s.(permits := s.permits - 1);
    Step(c, start, s, p, Quiet, b1, Launching(Count(Acquirer(ctx), None)));
    var s1 := Put(b1, p, Launching(Count(Acquirer(ctx), None)));
    var b2 := s1.(active := s.active + 1);
    Step(c, start, s1, p, Quiet, b2, Acq(Bind(ctx)));
    var s2 := Put(b2, p, Acq(Bind(ctx)));
    Binds(c, start, s2, ctx, n, p);
    assert Counted(c, s, n, p).tasks == s2.tasks[p := Launching(Launch(Acquirer(ctx), LeaseOf(c, n)))];
  }

  lemma Binds(c: Config, start: State, s: State, ctx: Option<Context>, n: nat, p: nat)
    requires Leads(c, start, s) && p < |s.tasks| && s.tasks[p] == Acq(Bind(ctx)) && n !in s.leases
    ensures Leads(c, start, Put(s.(leases := if c.proxied then s.leases[n := LeaseLog(0, 0, None)] else s.leases),
                                p, Launching(Launch(Acquirer(ctx), LeaseOf(c, n)))))
  {
    hide Leads;
    var b := s.(leases := if c.proxied then s.leases[n := LeaseLog(0, 0, None)] else s.leases);
    Step(c, start, s, p, if c.proxied then Bound(n) else Quiet, b, Launching(Launch(Acquirer(ctx), LeaseOf(c, n))));
  }

  /** When Chrome comes up, the caller has a new browser for its context. */
  lemma Launches(c: Config, start: State, s: State, n: nat, p: nat)
    requires Leads(c, start, s) && AwaitsPermit(s, p) && s.permits > 0 && n !in s.born && n !in s.leases
    ensures Leads(c, start, Holding(c, s, n, p))
  {
    hide Leads;
    Counts(c, start, s, n, p);
    var s1, ctx := Counted(c, s, n, p), s.tasks[p].acq.ctx;
    var b2 := s1.(born := s.born[n := Origin(ctx, LeaseOf(c, n))]);
    Step(c, start, s1, p, Launched(n), b2, Held(Handle(ctx, CargoOf(c, n))));
    assert Put(b2, p, Held(Handle(ctx, CargoOf(c, n)))).tasks == Holding(c, s, n, p).tasks;
  }

  /** When it does not, counter and permit go back, and the lease is dropped unmarked. */
  lemma LaunchFails(c: Config, start: State, s: State, n: nat, p: nat) returns (s': State)
    requires Leads(c, start, s) && AwaitsPermit(s, p) && s.permits > 0 && n !in s.leases
    ensures Leads(c, start, s')
    ensures s' == s.(leases := if c.proxied then s.leases[n := LeaseLog(0, 1, Some(LaunchFailed))] else s.leases,
                     tasks := s.tasks[p := Done])
  {
    hide Leads;
    Counts(c, start, s, n, p);
    var s1, who, lease := Counted(c, s, n, p), Acquirer(s.tasks[p].acq.ctx), LeaseOf(c, n);
    var b2 := s1.(leases := Depart(s1.leases, lease, LaunchFailed));
    Step(c, start, s1, p, LaunchError, b2, Launching(Uncount(who, lease)));
    s' := GivesBack(c, start, Put(b2, p, Launching(Uncount(who, lease))), p, who.ctx, lease);
    assert s'.tasks == s.tasks[p := Done];
  }

  /** And so they do when no proxy can be bound. */
  lemma BindingFails(c: Config, start: State, s: State, p: nat) returns (s': State)
    requires Leads(c, start, s) && AwaitsPermit(s, p) && s.permits > 0 && c.proxied
    ensures Leads(c, start, s') && s' == s.(tasks := s.tasks[p := Done])
  {
    hide Leads;
    var ctx := s.tasks[p].acq.ctx;
    var b1 := s.(permits := s.permits - 1);
    Step(c, start, s, p, Quiet, b1, Launching(Count(Acquirer(ctx), None)));
    var s1 := Put(b1, p, Launching(Count(Acquirer(ctx), None)));
    var b2 := s1.(active := s.active + 1);
    Step(c, start, s1, p, Quiet, b2, Acq(Bind(ctx)));
    var s2 := Put(b2, p, Acq(Bind(ctx)));
    Step(c, start, s2, p, BindFailed, s2, Launching(Uncount(Acquirer(ctx), None)));
    s' := GivesBack(c, start, Put(s2, p, Launching(Uncount(Acquirer(ctx), None))), p, ctx, None);
    assert s'.tasks == s.tasks[p := Done];
  }

  lemma GivesBack(c: Config, start: State, s: State, p: nat, ctx: Option<Context>, lease: Option<nat>)
    returns (s': State)
    requires Leads(c, start, s) && s.active > 0
    requires p < |s.tasks| && s.tasks[p] == Launching(Uncount(Acquirer(ctx), lease))
    ensures Leads(c, start, s')
    ensures s' == s.(active := s.active - 1, permits := s.permits + 1, leases := Drop(s.leases, lease),
                     tasks := s.tasks[p := Done])
  {
    hide Leads, Drop;
    var b1 := s.(active := s.active - 1);
    Step(c, start, s, p, Quiet, b1, Launching(Unpermit(Acquirer(ctx), lease)));
    var s1 := Put(b1, p, Launching(Unpermit(Acquirer(ctx), lease)));
    var b2 := s1.(permits := s.permits + 1, leases := Drop(s.leases, lease));
    Step(c, start, s1, p, Quiet, b2, Done);
    s' := Put(b2, p, Done);
    assert s'.tasks == s.tasks[p := Done];
  }

  // ---------------------------------------------------------------- a release

  /** An unhealthy browser gives back its permit at once, and its shutdown is under way. */
  lemma Discards(c: Config, start: State, s: State, p: nat) returns (s': State)
    requires Leads(c, start, s) && p < |s.tasks| && s.tasks[p].Held? && s.tasks[p].held.Handle?
    ensures Leads(c, start, s')
    ensures var dead := Instance(s.tasks[p].held.cargo.inst.id, false);
            s' == s.(permits := s.permits + 1, leases := s'.leases,
                     tasks := s.tasks[p := Done] + [Disposer(Closing(dead))])
    ensures s'.leases.Keys == s.leases.Keys
  {
    hide Leads;
    var ctx, cargo := s.tasks[p].held.ctx, s.tasks[p].held.cargo;
    var dead := cargo.(inst := Instance(cargo.inst.id, false));
    Step(c, start, s, p, Health(false), s, Held(Handle(ctx, dead)));
    var s1 := Put(s, p, Held(Handle(ctx, dead)));
    var b2 := s1.(leases := Depart(s.leases, dead.lease, Unhealthy));
    Step(c, start, s1, p, Release, b2, Held(RelDispose(ctx, dead)));
    var s2 := Put(b2, p, Held(RelDispose(ctx, dead)));
    var s3 := Become(s2, p, Held(RelPermit(dead.lease)), [Disposer(Closing(dead.inst))]);
    Then(c, start, s2, Run(p, Quiet), s3);
    var b4 := s3.(permits := s.permits + 1, leases := Drop(s3.leases, dead.lease));
    Step(c, start, s3, p, Quiet, b4, Done);
    s' := Put(b4, p, Done);
    assert s'.tasks == s.tasks[p := Done] + [Disposer(Closing(dead.inst))];
    KeysStay(s.leases, dead.lease, Unhealthy);
  }

  /** A healthy browser goes to the back of the queue of its context, be it released or its handle dropped. */
  lemma Returns(c: Config, start: State, s: State, p: nat, how: Env)
    requires Leads(c, start, s) && Inv(c, s) && !s.locked && (how == Release || how == DropHandle)
    requires p < |s.tasks| && s.tasks[p].Held? && s.tasks[p].held.Handle? && s.tasks[p].held.cargo.inst.healthy
    ensures var ctx, entry := s.tasks[p].held.ctx, Entry(s.tasks[p].held.cargo, s.now);
            Leads(c, start, Put(SetQueue(s, ctx, GetQueue(s, ctx) + [entry]), p, Done))
  {
    hide Leads, Inv, ScopedIdle;
    var ctx, cargo := s.tasks[p].held.ctx, s.tasks[p].held.cargo;
    RoomForHeld(c, s, p);
    Step(c, start, s, p, how, s, Held(RelLock(ctx, cargo, how == DropHandle)));
    var s1 := Put(s, p, Held(RelLock(ctx, cargo, how == DropHandle)));
    var b2 := SetQueue(s1, ctx, GetQueue(s1, ctx) + [Entry(cargo, s.now)]);
    Step(c, start, s1, p, Quiet, b2, Done);
    assert Put(b2, p, Done).tasks == s.tasks[p := Done];
  }

  // ---------------------------------------------------------------- a shutdown

  lemma ShutsDown(c: Config, start: State, s: State, k: nat) returns (s': State)
    requires Leads(c, start, s) && k < |s.tasks| && s.tasks[k].Disposer? && s.tasks[k].disposer.Closing?
    ensures Leads(c, start, s')
    ensures s' == s.(active := FetchSub(s.active), gone := s'.gone, tasks := s.tasks[k := Done])
  {
    hide Leads;
    var inst := s.tasks[k].disposer.inst;
    var b := s.(gone := s.gone + {inst.id});
    Step(c, start, s, k, Quiet, b, Disposer(Closed));
    var s1 := Put(b, k, Disposer(Closed));
    Step(c, start, s1, k, Quiet, s1.(active := FetchSub(s.active)), Done);
    s' := Put(s1.(active := FetchSub(s.active)), k, Done);
    assert s'.tasks == s.tasks[k := Done];
  }
}
