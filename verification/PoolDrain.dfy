/**
 How the activities of a pool come to an end. From every state each of them can be brought to its
 end by answers that never hand out or keep a browser: launches fail, browsers turn out unhealthy.
 `Rank` bounds the steps an activity and the shutdowns it spawns have left on that way.
 */
module PoolDrain {
  import opened Options
  import opened PoolModel
  import opened PoolMeasure
  import opened PoolInvariant
  import opened PoolSteps
  import opened PoolTheorems
  import opened PoolTraces

  // ---------------------------------------------------------------- adding up over tasks

  datatype Measure =
    | StepsLeft(min: nat)   // steps to the end
    | LockWaits             // releases that wait for the lock
    | ToEvict               // what sweeps have still to evict

  /** The steps left to a warm-up loop at index `i`. */
  function WarmRank(min: nat, i: nat): nat {
    1 + 6 * (if i < min then min - i else 0)
  }

  function LaunchRank(min: nat, pc: LaunchPc): nat {
    (match pc
     case Count(who, _) => if who.Acquirer? then 5 else 4
     case Launch(_, _) => 3
     case Uncount(_, _) => 2
     case Unpermit(_, _) => 1)
    + if pc.who.Warmer? then WarmRank(min, pc.who.i + 1) else 0
  }

  function Rank(min: nat, t: Task): nat {
    match t
    case Done => 0
    case Warm(WarmNext(i)) => WarmRank(min, i)
    case Warm(WarmPermit(i, _)) => 5 + WarmRank(min, i + 1)
    case Warm(WarmPush(i, _)) => 1 + WarmRank(min, i + 1)
    case Acq(pc) => if pc.Dispose? && pc.found.Some? then 7 else if pc.Bind? then 4 else 0
    case Launching(pc) => LaunchRank(min, pc)
    case Held(Handle(_, cargo)) => if cargo.inst.healthy then 6 else 5
    case Held(RelLock(_, _, _)) => 1
    case Held(RelDispose(_, _)) => 4
    case Held(RelPermit(_)) => 1
    case Disposer(pc) => if pc.Closing? then 2 else if pc.Closed? then 1 else 0
    case Releasing(CtxLock(_)) => 0
    case Releasing(CtxDrain(_, entries)) => 4 * |entries|
    case Releasing(CtxPermit(_, _, entries)) => 1 + 4 * |entries|
    case Sweeping(Evict(entries)) => 1 + 2 * |entries|
    case Sweeping(EvictCount(_, entries)) => 2 + 2 * |entries|
  }

  function Of(m: Measure, t: Task): nat {
    match m
    case StepsLeft(min) => Rank(min, t)
    case LockWaits => OneIf(AwaitsLock(t))
    case ToEvict => Pending(t)
  }

  function Sum(m: Measure, ts: seq<Task>): nat {
    if ts == [] then 0 else Sum(m, ts[..|ts| - 1]) + Of(m, ts[|ts| - 1])
  }

  lemma {:induction false} SumAppend(m: Measure, a: seq<Task>, b: seq<Task>)
    ensures Sum(m, a + b) == Sum(m, a) + Sum(m, b)
    decreases |b|
  {
    hide Of;
    if b == [] {
      assert a + b == a;
    } else {
      assert (a + b)[..|a + b| - 1] == a + b[..|b| - 1];
      SumAppend(m, a, b[..|b| - 1]);
    }
  }

  lemma SumOne(m: Measure, t: Task)
    ensures Sum(m, [t]) == Of(m, t)
  {
    hide Of;
    assert [t][..0] == [];
  }

  lemma SumSplit(m: Measure, ts: seq<Task>, i: nat)
    requires i < |ts|
    ensures Sum(m, ts) == Sum(m, ts[..i]) + Of(m, ts[i]) + Sum(m, ts[i + 1..])
  {
    hide Of, Sum;
    assert ts == ts[..i] + ([ts[i]] + ts[i + 1..]);
    SumAppend(m, ts[..i], [ts[i]] + ts[i + 1..]);
    SumAppend(m, [ts[i]], ts[i + 1..]);
    SumOne(m, ts[i]);
  }

  /** The task at `i` becomes `t` and spawns `spawned`: the sum changes by exactly that. */
  lemma SumStep(m: Measure, ts: seq<Task>, i: nat, t: Task, spawned: seq<Task>)
    requires i < |ts|
    ensures Sum(m, ts[i := t] + spawned) + Of(m, ts[i]) == Sum(m, ts) + Of(m, t) + Sum(m, spawned)
  {
    hide Of, Sum;
    SumSplit(m, ts, i);
    SumSplit(m, ts[i := t], i);
    assert ts[i := t][..i] == ts[..i] && ts[i := t][i + 1..] == ts[i + 1..];
    SumAppend(m, ts[i := t], spawned);
  }

  // ---------------------------------------------------------------- the way to the end

  function Nudge(c: Config, t: Task): Env {
    match t
    case Warm(WarmNext(_)) => if c.proxied then BindFailed else Quiet
    case Acq(Bind(_)) => if c.proxied then BindFailed else Quiet
    case Launching(Launch(_, _)) => LaunchError
    case Held(Handle(_, cargo)) => if cargo.inst.healthy then Health(false) else Release
    case _ => Quiet
  }

  /** The step leaves less to do, and no release that waits for the lock. */
  ghost predicate Shortens(c: Config, s: State, i: nat, r: Option<State>, t: Task, spawned: seq<Task>)
    requires i < |s.tasks|
  {
    && r.Some? && r.value.tasks == s.tasks[i := t] + spawned && |spawned| <= 1 && !AwaitsLock(t)
    && Rank(c.min, t) + (if |spawned| == 1 then Rank(c.min, spawned[0]) else 0) < Rank(c.min, s.tasks[i])
  }

  lemma WarmShortens(c: Config, s: State, i: nat) returns (t: Task)
    requires i < |s.tasks| && s.tasks[i].Warm?
    ensures Shortens(c, s, i, WarmStep(c, s, i, s.tasks[i].warm, Nudge(c, s.tasks[i])), t, [])
  {
    hide Depart, Drop;
    match s.tasks[i].warm {
      case WarmNext(n) =>
        t := if n >= c.min then Done else if c.proxied then Warm(WarmNext(n + 1)) else Warm(WarmPermit(n, None));
      case WarmPermit(n, lease) => t := if s.permits > 0 then Launching(Count(Warmer(n), lease)) else Done;
      case WarmPush(n, _) => t := Warm(WarmNext(n + 1));
    }
  }

  lemma AcquireShortens(c: Config, s: State, i: nat) returns (t: Task)
    requires i < |s.tasks| && s.tasks[i].Acq? && AcqOk(s.born, s.tasks[i].acq) && Rank(c.min, s.tasks[i]) > 0
    ensures Shortens(c, s, i, AcquireStep(c, s, i, s.tasks[i].acq, Nudge(c, s.tasks[i])), t, [])
  {
    hide FastPop, Depart, Drop;
    match s.tasks[i].acq {
      case Dispose(ctx, _, found, _) => t := Held(Handle(ctx, found.value));
      case Bind(ctx) =>
        t := Launching(if c.proxied then Uncount(Acquirer(ctx), None) else Launch(Acquirer(ctx), None));
      case _ => t := Done;
    }
  }

  lemma LaunchShortens(c: Config, s: State, i: nat) returns (t: Task)
    requires i < |s.tasks| && s.tasks[i].Launching?
    ensures Shortens(c, s, i, LaunchStep(s, i, s.tasks[i].launch, Nudge(c, s.tasks[i])), t, [])
  {
    hide Depart, Drop;
    match s.tasks[i].launch {
      case Count(who, lease) =>
        t := if who.Acquirer? then Acq(Bind(who.ctx)) else Launching(Launch(who, lease));
      case Launch(who, lease) => t := Launching(Uncount(who, lease));
      case Uncount(who, lease) => t := Launching(Unpermit(who, lease));
      case Unpermit(who, _) => t := if who.Acquirer? then Done else Warm(WarmNext(who.i + 1));
    }
  }

  lemma ReleaseShortens(c: Config, s: State, i: nat) returns (t: Task, spawned: seq<Task>)
    requires i < |s.tasks| && s.tasks[i].Held?
    requires AwaitsLock(s.tasks[i]) ==> !s.locked && TotalIdle(s) < c.max
    ensures Shortens(c, s, i, ReleaseStep(c, s, i, s.tasks[i].held, Nudge(c, s.tasks[i])), t, spawned)
  {
    hide Depart, Drop, Mark, TotalIdle;
    spawned := [];
    match s.tasks[i].held {
      case Handle(ctx, cargo) =>
        t := Held(if cargo.inst.healthy then Handle(ctx, cargo.(inst := cargo.inst.(healthy := false)))
                  else RelDispose(ctx, cargo));
      case RelDispose(_, cargo) => t, spawned := Held(RelPermit(cargo.lease)), [Disposer(Closing(cargo.inst))];
      case _ => t := Done;
    }
  }

  lemma OtherShortens(c: Config, s: State, i: nat) returns (t: Task, spawned: seq<Task>)
    requires i < |s.tasks| && Rank(c.min, s.tasks[i]) > 0
    requires s.tasks[i].Disposer? || s.tasks[i].Releasing? || s.tasks[i].Sweeping?
    ensures Shortens(c, s, i, RunStep(c, s, i, Quiet), t, spawned)
  {
    hide Depart, Drop, Mark, ReleaseStep, AcquireStep, WarmStep, LaunchStep;
    spawned := [];
    match s.tasks[i] {
      case Disposer(pc) => t := if pc.Closing? then Disposer(Closed) else Done;
      case Releasing(CtxDrain(id, entries)) =>
        t, spawned := Releasing(CtxPermit(id, entries[0].cargo.lease, entries[1..])),
                      [Disposer(Closing(entries[0].cargo.inst))];
      case Releasing(CtxPermit(id, _, entries)) => t := Releasing(CtxDrain(id, entries));
      case Sweeping(Evict(entries)) =>
        if entries == [] {
          t := Done;
        } else {
          t, spawned := Sweeping(EvictCount(entries[0].cargo.lease, entries[1..])),
                        [Disposer(EvictClosing(entries[0].cargo.inst))];
        }
      case Sweeping(EvictCount(_, entries)) => t := Sweeping(Evict(entries));
      case _ => t := Done;
    }
  }

  lemma RunShortens(c: Config, s: State, i: nat) returns (t: Task, spawned: seq<Task>)
    requires i < |s.tasks| && TaskOk(s.born, s.tasks[i]) && Rank(c.min, s.tasks[i]) > 0
    requires AwaitsLock(s.tasks[i]) ==> !s.locked && TotalIdle(s) < c.max
    ensures Shortens(c, s, i, RunStep(c, s, i, Nudge(c, s.tasks[i])), t, spawned)
  {
    hide Shortens, TotalIdle, WarmStep, AcquireStep, LaunchStep, ReleaseStep, DisposerStep, ContextStep, EvictStep;
    spawned := [];
    match s.tasks[i] {
      case Done => t := Done;
      case Warm(_) => t := WarmShortens(c, s, i);
      case Acq(_) => t := AcquireShortens(c, s, i);
      case Launching(_) => t := LaunchShortens(c, s, i);
      case Held(_) => t, spawned := ReleaseShortens(c, s, i);
      case _ => t, spawned := OtherShortens(c, s, i);
    }
  }

  /** Every activity that has steps left can take one, unless it waits for the lock. */
  lemma StepDown(c: Config, s: State, i: nat) returns (s': State)
    requires Inv(c, s) && i < |s.tasks| && Rank(c.min, s.tasks[i]) > 0 && (AwaitsLock(s.tasks[i]) ==> !s.locked)
    ensures Next(c, s, Run(i, Nudge(c, s.tasks[i]))) == Some(s')
    ensures Sum(StepsLeft(c.min), s'.tasks) < Sum(StepsLeft(c.min), s.tasks)
    ensures Sum(LockWaits, s'.tasks) + OneIf(AwaitsLock(s.tasks[i])) == Sum(LockWaits, s.tasks)
    ensures s'.evicted + Sum(ToEvict, s'.tasks) == s.evicted + Sum(ToEvict, s.tasks) && s'.abandoned == s.abandoned
    ensures Moves(s, s', i) && IdleMoves(s, s', i, s'.tasks[i])
  {
    hide Inv, RunStep, SweepMoves, IdleMoves, Rank, Sum, TotalIdle, Nudge, TaskOk;
    TaskIsOk(c, s, i);
    if AwaitsLock(s.tasks[i]) {
      RoomForHeld(c, s, i);
    }
    var env := Nudge(c, s.tasks[i]);
    var t, spawned := RunShortens(c, s, i);
    s' := RunStep(c, s, i, env).value;
    var t', spawned' := RunShape(c, s, i, env, s');
    SameShape(s.tasks, i, t, spawned, t', spawned');
    ShapeMoves(s, s', i, t, spawned);
    RunRegainsNone(c, s, i, env, s');
    ShapeSums(c.min, s, s', i, t, spawned);
  }

  lemma SameShape(ts: seq<Task>, i: nat, t: Task, spawned: seq<Task>, t': Task, spawned': seq<Task>)
    requires i < |ts| && ts[i := t] + spawned == ts[i := t'] + spawned'
    ensures t == t' && spawned == spawned'
  {
    assert (ts[i := t] + spawned)[i] == t && (ts[i := t'] + spawned')[i] == t';
    assert (ts[i := t] + spawned)[|ts|..] == spawned && (ts[i := t'] + spawned')[|ts|..] == spawned';
  }

  lemma ShapeSums(min: nat, s: State, s': State, i: nat, t: Task, spawned: seq<Task>)
    requires i < |s.tasks| && FewSpawned(spawned) && s'.tasks == s.tasks[i := t] + spawned && SweepMoves(s, s', i, t)
    ensures Sum(StepsLeft(min), s'.tasks) + Rank(min, s.tasks[i])
         == Sum(StepsLeft(min), s.tasks) + Rank(min, t) + if |spawned| == 1 then Rank(min, spawned[0]) else 0
    ensures Sum(LockWaits, s'.tasks) + OneIf(AwaitsLock(s.tasks[i])) == Sum(LockWaits, s.tasks) + OneIf(AwaitsLock(t))
    ensures s'.evicted + Sum(ToEvict, s'.tasks) == s.evicted + Sum(ToEvict, s.tasks)
  {
    hide Rank, Sum;
    SumStep(StepsLeft(min), s.tasks, i, t, spawned);
    SumStep(LockWaits, s.tasks, i, t, spawned);
    SumStep(ToEvict, s.tasks, i, t, spawned);
    if spawned == [] {
      SumNone(StepsLeft(min));
      SumNone(LockWaits);
      SumNone(ToEvict);
    } else {
      assert spawned == [spawned[0]];
      SumOne(StepsLeft(min), spawned[0]);
      SumOne(LockWaits, spawned[0]);
      SumOne(ToEvict, spawned[0]);
    }
  }

  lemma SumNone(m: Measure)
    ensures Sum(m, []) == 0
  {
  }
}
