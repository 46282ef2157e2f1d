/**
 What a single call gets from the pool, step by step, in every reachable state: what an `acquire` decides
 on, what a caller that waits or polls is given, and what is lost when a future is dropped.
 */
module PoolCalls {
  import opened Options
  import opened PoolModel
  import opened PoolRuns
  import opened PoolCallers
  import opened PoolInvariant
  import opened PoolSteps
  import opened PoolTheorems

  // ---------------------------------------------------------------- calls and handles

  /** Calls come in once the warm-up is over, each as an activity of its own. */
  lemma CallsComeIn(c: Config, s: State, ctx: Option<Context>, id: Context)
    ensures var over := |s.tasks| > 0 && s.tasks[0] == Done;
            && Next(c, s, NewAcquire(ctx)) == (if over then Some(With(s, Acq(Start(ctx)))) else None)
            && Next(c, s, NewReleaseContext(id)) == (if over then Some(With(s, Releasing(CtxLock(id)))) else None)
  {
  }

  predicate IsHeld(s: State, i: nat) {
    i < |s.tasks| && IsHandle(s.tasks[i])
  }

  /**
   While a browser is in use only its health flag changes. Given back, by a release or by dropping the handle,
   it goes to the queue if it is healthy, and else is disposed of, and its lease leaves as unhealthy.
   */
  lemma HandleDecides(c: Config, s: State, i: nat, env: Env)
    requires IsHeld(s, i)
    ensures var ctx, cargo := s.tasks[i].held.ctx, s.tasks[i].held.cargo;
            Next(c, s, Run(i, env))
            == if env.Health? then
                 Some(Put(s, i, Held(Handle(ctx, Cargo(Instance(cargo.inst.id, env.ok), cargo.lease)))))
               else if env != Release && env != DropHandle then None
               else if cargo.inst.healthy then Some(Put(s, i, Held(RelLock(ctx, cargo, env == DropHandle))))
               else Some(Put(s.(leases := Depart(s.leases, cargo.lease, Unhealthy)), i, Held(RelDispose(ctx, cargo))))
  {
    hide Depart;
    var ctx, cargo := s.tasks[i].held.ctx, s.tasks[i].held.cargo;
    if env.Health? {
      BecomePut(s, i, Held(Handle(ctx, cargo.(inst := cargo.inst.(healthy := env.ok)))));
    } else if cargo.inst.healthy {
      BecomePut(s, i, Held(RelLock(ctx, cargo, env == DropHandle)));
    } else {
      BecomePut(s.(leases := Depart(s.leases, cargo.lease, Unhealthy)), i, Held(RelDispose(ctx, cargo)));
    }
  }

  // ---------------------------------------------------------------- an acquire call

  /** A call comes in, reads the counter, looks at its queue, and decides. */
  function CallEvents(ctx: Option<Context>, i: nat): seq<Event> {
    [NewAcquire(ctx), Run(i, Quiet), Run(i, Quiet), Run(i, Quiet)]
  }

  /** Nobody else moves: the call gets the oldest browser of its queue, or waits for a permit, or polls. */
  function Decided(c: Config, s: State, ctx: Option<Context>): State {
    var q := GetQueue(s, ctx);
    if q != [] then With(PutBack(s, ctx, q[1..]), Held(Handle(ctx, q[0].cargo)))
    else With(s, Acq(if s.active < c.max then Wait(ctx, s.active) else Poll(ctx)))
  }

  lemma RunLast(c: Config, s: State, t: Task, env: Env, b: State, t': Task)
    requires b.tasks == s.tasks
    requires RunStep(c, With(s, t), |s.tasks|, env) == Some(Become(With(b, t), |s.tasks|, t', []))
    ensures Next(c, With(s, t), Run(|s.tasks|, env)) == Some(With(b, t'))
  {
    hide RunStep;
    assert (s.tasks + [t])[|s.tasks| := t'] + [] == s.tasks + [t'];
  }

  lemma Looks(c: Config, s: State, ctx: Option<Context>)
    requires Reachable(c, s) && !s.locked
    ensures var q := GetQueue(s, ctx);
            var found, b := if q == [] then None else Some(q[0].cargo), if q == [] then s else PutBack(s, ctx, q[1..]);
            Next(c, With(s, Acq(Fast(ctx, s.active))), Run(|s.tasks|, Quiet))
            == Some(With(b, Acq(Dispose(ctx, s.active, found, []))))
  {
    hide Inv, Reachable;
    ReachableInv(c, s);
    QueueIsOk(c, s, ctx);
    var q := GetQueue(s, ctx);
    HealthyPop(q);
    var t, found := Acq(Fast(ctx, s.active)), if q == [] then None else Some(q[0].cargo);
    var b := if q == [] then s else PutBack(s, ctx, q[1..]);
    Unchanged(s, t, ctx);
    hide FastPop;
    RunLast(c, s, t, Quiet, b, Acq(Dispose(ctx, s.active, found, [])));
  }

  lemma Unchanged(s: State, t: Task, ctx: Option<Context>)
    ensures GetQueue(With(s, t), ctx) == GetQueue(s, ctx)
    ensures GetQueue(s, ctx) == [] ==> PutBack(With(s, t), ctx, []) == With(s, t)
    ensures forall q :: PutBack(With(s, t), ctx, q) == With(PutBack(s, ctx, q), t)
  {
  }

  lemma AcquireDecides(c: Config, s: State, ctx: Option<Context>)
    requires Reachable(c, s) && WarmedUp(s) && !s.locked
    ensures Exec(c, s, CallEvents(ctx, |s.tasks|)) == Some(Decided(c, s, ctx))
  {
    hide Exec, Reachable;
    var q, i := GetQueue(s, ctx), |s.tasks|;
    var found, b := if q == [] then None else Some(q[0].cargo), if q == [] then s else PutBack(s, ctx, q[1..]);
    ExecNone(c, s);
    ExecSnoc(c, s, [], s, NewAcquire(ctx), With(s, Acq(Start(ctx))));
    RunLast(c, s, Acq(Start(ctx)), Quiet, s, Acq(Fast(ctx, s.active)));
    ExecSnoc(c, s, [] + [NewAcquire(ctx)], With(s, Acq(Start(ctx))), Run(i, Quiet), With(s, Acq(Fast(ctx, s.active))));
    Looks(c, s, ctx);
    var s3 := With(b, Acq(Dispose(ctx, s.active, found, [])));
    ExecSnoc(c, s, [] + [NewAcquire(ctx)] + [Run(i, Quiet)], With(s, Acq(Fast(ctx, s.active))), Run(i, Quiet), s3);
    var t := if found.Some? then Held(Handle(ctx, found.value))
             else Acq(if s.active < c.max then Wait(ctx, s.active) else Poll(ctx));
    RunLast(c, b, Acq(Dispose(ctx, s.active, found, [])), Quiet, b, t);
    ExecSnoc(c, s, [] + [NewAcquire(ctx)] + [Run(i, Quiet)] + [Run(i, Quiet)], s3, Run(i, Quiet), With(b, t));
    assert [] + [NewAcquire(ctx)] + [Run(i, Quiet)] + [Run(i, Quiet)] + [Run(i, Quiet)] == CallEvents(ctx, i);
  }

  /** A caller that waits for a permit goes on with one, times out, or stays; nothing else changes. */
  lemma WaitDecides(c: Config, s: State, i: nat, env: Env)
    requires AwaitsPermit(s, i)
    ensures Next(c, s, Run(i, env))
         == if env == Timeout then Some(Put(s, i, Done))
            else if s.permits > 0 then
              Some(Put(s.(permits := s.permits - 1), i, Launching(Count(Acquirer(s.tasks[i].acq.ctx), None))))
            else None
  {
    BecomePut(s, i, Done);
    if s.permits > 0 {
      BecomePut(s.(permits := s.permits - 1), i, Launching(Count(Acquirer(s.tasks[i].acq.ctx), None)));
    }
  }

  // ---------------------------------------------------------------- polling

  predicate Polls(s: State, i: nat) {
    i < |s.tasks| && s.tasks[i].Acq? && s.tasks[i].acq.Poll?
  }

  /** Of all queues only that of `ctx` differs, and apart from queues and tasks nothing does. */
  ghost predicate OnlyQueue(s: State, s': State, ctx: Option<Context>, q: seq<Entry>, tasks: seq<Task>) {
    && s' == s.(shared := s'.shared, scoped := s'.scoped, tasks := tasks)
    && GetQueue(s', ctx) == q
    && forall other :: other != ctx ==> GetQueue(s', other) == GetQueue(s, other)
  }

  /**
   A caller that polls waits for a sweep to end, goes on polling while its queue is empty, and is else given
   the head of it, healthy, and nothing else changes.
   */
  lemma PollTakesHead(c: Config, s: State, i: nat, env: Env)
    requires Reachable(c, s) && Polls(s, i)
    ensures var ctx := s.tasks[i].acq.ctx;
            var q, next := GetQueue(s, ctx), Next(c, s, Run(i, env));
            if env == Timeout then next == Some(Put(s, i, Done))
            else if s.locked then next == None
            else if q == [] then next == Some(s)
            else
              && next.Some? && q[0].cargo.inst.healthy
              && OnlyQueue(s, next.value, ctx, q[1..], s.tasks[i := Held(Handle(ctx, q[0].cargo))])
  {
    hide Inv, Reachable;
    ReachableInv(c, s);
    QueueIsOk(c, s, s.tasks[i].acq.ctx);
    BecomePut(s, i, Done);
  }

  /**
   A browser that is released healthy reaches a caller that polls for its context: with nothing else idle there
   it is handed over, and else the oldest one is, and the released one takes its turn.
   */
  lemma ReleaseReachesPoller(c: Config, s: State, i: nat, j: nat, env: Env) returns (s': State)
    requires Reachable(c, s) && !s.locked && i < |s.tasks| && s.tasks[i].Held? && s.tasks[i].held.RelLock?
    requires Polls(s, j) && s.tasks[j].acq.ctx == s.tasks[i].held.ctx && env != Timeout
    ensures var ctx, cargo := s.tasks[i].held.ctx, s.tasks[i].held.cargo;
            var q := GetQueue(s, ctx) + [Entry(cargo, s.now)];
            && Exec(c, s, [Run(i, Quiet), Run(j, env)]) == Some(s')
            && OnlyQueue(s, s', ctx, q[1..], s.tasks[i := Done][j := Held(Handle(ctx, q[0].cargo))])
            && (GetQueue(s, ctx) == [] ==> q[0].cargo == cargo)
  {
    hide Exec, Reachable, RunStep;
    var ctx, cargo := s.tasks[i].held.ctx, s.tasks[i].held.cargo;
    var mid := Put(SetQueue(s, ctx, GetQueue(s, ctx) + [Entry(cargo, s.now)]), i, Done);
    Released(c, s, i);
    ReachableNext(c, s, Run(i, Quiet), mid);
    PollTakesHead(c, mid, j, env);
    s' := Next(c, mid, Run(j, env)).value;
    ExecNone(c, s);
    ExecSnoc(c, s, [], s, Run(i, Quiet), mid);
    ExecSnoc(c, s, [] + [Run(i, Quiet)], mid, Run(j, env), s');
    assert [] + [Run(i, Quiet)] + [Run(j, env)] == [Run(i, Quiet), Run(j, env)];
  }

  lemma Released(c: Config, s: State, i: nat)
    requires Reachable(c, s) && !s.locked && i < |s.tasks| && s.tasks[i].Held? && s.tasks[i].held.RelLock?
    ensures var ctx, cargo := s.tasks[i].held.ctx, s.tasks[i].held.cargo;
            Next(c, s, Run(i, Quiet)) == Some(Put(SetQueue(s, ctx, GetQueue(s, ctx) + [Entry(cargo, s.now)]), i, Done))
  {
    hide Inv, Reachable, ScopedIdle;
    ReachableInv(c, s);
    RoomForHeld(c, s, i);
    var ctx, cargo := s.tasks[i].held.ctx, s.tasks[i].held.cargo;
    BecomePut(SetQueue(s, ctx, GetQueue(s, ctx) + [Entry(cargo, s.now)]), i, Done);
  }

  lemma ReachableNext(c: Config, s: State, ev: Event, s': State)
    requires Reachable(c, s) && Next(c, s, ev) == Some(s')
    ensures Reachable(c, s')
  {
    hide Exec, Next;
    var events :| Exec(c, Init(c), events) == Some(s);
    ExecSnoc(c, Init(c), events, s, ev, s');
  }

  // ---------------------------------------------------------------- dropped futures

  /** The caller's future owns a unit of capacity, and its await can be abandoned. */
  predicate OwnsUnit(t: Task) {
    match t
    case Acq(pc) => pc.Bind?
    case Launching(pc) => pc.Launch? && pc.who.Acquirer?
    case Held(pc) => pc.RelLock? && !pc.detached
    case _ => false
  }

  /** Its future owns nothing yet, and its await can be abandoned. */
  predicate OwnsNothing(t: Task) {
    match t
    case Acq(pc) => pc.Fast? || pc.Wait? || pc.Poll?
    case Releasing(pc) => pc.CtxLock?
    case _ => false
  }

  /**
   A future can be dropped where it awaits and nowhere else. If it owns nothing, nothing but the call is gone.
   If it owns a unit of capacity, neither permit nor counter is given back: the unit is abandoned, its lease
   dropped unmarked, and the browser of a release is gone.
   */
  lemma DroppedFutures(c: Config, s: State, i: nat)
    requires i < |s.tasks|
    ensures var t, next := s.tasks[i], Next(c, s, Cancel(i));
            && (next.Some? <==> OwnsNothing(t) || OwnsUnit(t))
            && (OwnsNothing(t) ==> next == Some(Put(s, i, Done)))
            && (OwnsUnit(t) ==>
                  && next.value == s.(abandoned := s.abandoned + 1, tasks := s.tasks[i := Done],
                                      leases := next.value.leases, gone := next.value.gone)
                  && next.value.gone == (if t.Held? then s.gone + {t.held.cargo.inst.id} else s.gone)
                  && var lease := if t.Launching? then t.launch.lease else if t.Held? then t.held.cargo.lease else None;
                     next.value.leases
                     == if lease.None? || lease.value !in s.leases then s.leases
                        else s.leases[lease.value := LeaseLog(s.leases[lease.value].marks,
                                                              s.leases[lease.value].drops + 1, Some(Abandoned))])
  {
    BecomePut(s, i, Done);
    assert s.tasks[i := Done] + [] == s.tasks[i := Done];
  }
}
