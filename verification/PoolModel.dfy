/**
 The browser pool as a state machine.

 Every running activity (an `acquire` call, a handle in a caller's hands, a spawned shutdown,
 ...) is a `Task`. A task moves by one step at a time: one lock-protected block, one semaphore
 operation, one atomic read-modify-write, or one answer from the outside (Chrome, the proxy
 source, a timer). An interleaving of all the activities is a sequence of `Event`s.

 `born`, `gone`, `leases`, `evicted` and `abandoned` are history: no step reads them to decide
 what to do, except that a freshly minted id must not have been used before.
 */
module PoolModel {
  import opened Options

  type Context = string

  const USIZE_MAX: nat := 0xFFFF_FFFF_FFFF_FFFF

  /** `proxied` says whether the configuration has a `proxy_source`. */
  datatype Config = Config(max: nat, min: nat, idleTimeout: nat, proxied: bool)

  /** A `BrowserInstance`: its id and the cached `healthy` flag. */
  datatype Instance = Instance(id: nat, healthy: bool)

  /** An instance and the proxy lease that travels with it. */
  datatype Cargo = Cargo(inst: Instance, lease: Option<nat>)

  /** A `PoolEntry`. */
  datatype Entry = Entry(cargo: Cargo, lastUsed: nat)

  /** Where an instance was launched for, and under which lease. */
  datatype Origin = Origin(ctx: Option<Context>, lease: Option<nat>)

  /** Why a lease stopped serving: recorded at the moment the decision is taken. */
  datatype Exit =
    | LaunchFailed | Unhealthy | Evicted | ContextReleased | Unused | Abandoned
    | PoolFull | IdleUnhealthy

  /** What a proxy source sees of one lease: calls of `mark_success`, drops, and the reason. */
  datatype LeaseLog = LeaseLog(marks: nat, drops: nat, exit: Option<Exit>)

  /** Who is launching: an acquirer for a context, or the warm-up loop at index `i`. */
  datatype Launcher = Acquirer(ctx: Option<Context>) | Warmer(i: nat)

  /** The warm-up loop. */
  datatype WarmPc =
    | WarmNext(i: nat)
    | WarmPermit(i: nat, lease: Option<nat>)
    | WarmPush(i: nat, cargo: Cargo)

  /** `acquire_inner` and `poll_for_release`, except for the launch. */
  datatype AcqPc =
    | Start(ctx: Option<Context>)
    | Fast(ctx: Option<Context>, active: nat)
    | Dispose(ctx: Option<Context>, active: nat, found: Option<Cargo>, rest: seq<Cargo>)
    | Wait(ctx: Option<Context>, active: nat)
    | Bind(ctx: Option<Context>)
    | Poll(ctx: Option<Context>)
    | PollDispose(ctx: Option<Context>, cargo: Cargo)

  /** A launch that owns a permit, from counting it to giving it back. */
  datatype LaunchPc =
    | Count(who: Launcher, lease: Option<nat>)
    | Launch(who: Launcher, lease: Option<nat>)
    | Uncount(who: Launcher, lease: Option<nat>)
    | Unpermit(who: Launcher, lease: Option<nat>)

  /** A handle and its release; `detached` when a task spawned by `drop` runs the release. */
  datatype HandlePc =
    | Handle(ctx: Option<Context>, cargo: Cargo)
    | RelLock(ctx: Option<Context>, cargo: Cargo, detached: bool)
    | RelDispose(ctx: Option<Context>, cargo: Cargo)
    | RelPermit(lease: Option<nat>)

  /** A spawned shutdown: `Closing` decrements `active_count` when it ends, `EvictClosing` does not. */
  datatype DisposerPc =
    | Closing(inst: Instance)
    | Closed
    | EvictClosing(inst: Instance)

  /** `release_context`. */
  datatype ContextPc =
    | CtxLock(id: Context)
    | CtxDrain(id: Context, entries: seq<Entry>)
    | CtxPermit(id: Context, lease: Option<nat>, entries: seq<Entry>)

  /**
   The eviction loop after it has taken the lock, read the clock and the counter, and decided which
   entries go: one by one it hands them to a shutdown and subtracts them from the counter.
   */
  datatype SweepPc =
    | Evict(entries: seq<Entry>)
    | EvictCount(lease: Option<nat>, entries: seq<Entry>)

  datatype Task =
    | Done
    | Warm(warm: WarmPc)
    | Acq(acq: AcqPc)
    | Launching(launch: LaunchPc)
    | Held(held: HandlePc)
    | Disposer(disposer: DisposerPc)
    | Releasing(context: ContextPc)
    | Sweeping(sweep: SweepPc)

  /** `locked`: a sweep holds the lock. All other locked blocks are single steps. */
  datatype State = State(
    permits: nat,
    active: nat,
    shared: seq<Entry>,
    scoped: map<Context, seq<Entry>>,
    tasks: seq<Task>,
    locked: bool,
    now: nat,
    leases: map<nat, LeaseLog>,
    born: map<nat, Origin>,
    gone: set<nat>,
    evicted: nat,
    abandoned: nat)

  /** The answer of the environment to the step a task takes. */
  datatype Env =
    | Quiet
    | Timeout
    | Bound(lease: nat)
    | BindFailed
    | Launched(id: nat)
    | LaunchError
    | Health(ok: bool)
    | Release
    | DropHandle

  datatype Event =
    | Tick(now: nat)
    | Sweep(order: seq<Context>)
    | NewAcquire(ctx: Option<Context>)
    | NewReleaseContext(id: Context)
    | Run(i: nat, env: Env)
    | Cancel(i: nat)

  // ---------------------------------------------------------------- queues

  function GetQueue(s: State, ctx: Option<Context>): seq<Entry> {
    match ctx
    case None => s.shared
    case Some(id) => if id in s.scoped then s.scoped[id] else []
  }

  function SetQueue(s: State, ctx: Option<Context>, q: seq<Entry>): State {
    match ctx
    case None => s.(shared := q)
    case Some(id) => s.(scoped := s.scoped[id := q])
  }

  /** Popping a queue that does not exist creates none. */
  function PutBack(s: State, ctx: Option<Context>, q: seq<Entry>): (r: State)
    ensures r == s.(shared := r.shared, scoped := r.scoped)
  {
    if ctx.Some? && ctx.value !in s.scoped then s else SetQueue(s, ctx, q)
  }

  /** Index of the first healthy entry at or after `from`, or the length of the queue. */
  function NextHealthy(q: seq<Entry>, from: nat): (k: nat)
    requires from <= |q|
    ensures from <= k <= |q|
    decreases |q| - from
  {
    if from == |q| || q[from].cargo.inst.healthy then from else NextHealthy(q, from + 1)
  }

  lemma {:induction false} NextHealthyIsFirst(q: seq<Entry>, from: nat)
    requires from <= |q|
    ensures forall j :: from <= j < NextHealthy(q, from) ==> !q[j].cargo.inst.healthy
    ensures NextHealthy(q, from) < |q| ==> q[NextHealthy(q, from)].cargo.inst.healthy
    decreases |q| - from
  {
    if from < |q| && !q[from].cargo.inst.healthy { NextHealthyIsFirst(q, from + 1); }
  }

  function Cargos(q: seq<Entry>): (r: seq<Cargo>)
    ensures |r| == |q| && forall j :: 0 <= j < |q| ==> r[j] == q[j].cargo
  {
    seq(|q|, j requires 0 <= j < |q| => q[j].cargo)
  }

  datatype Popped = Popped(found: Option<Cargo>, unhealthy: seq<Cargo>, rest: seq<Entry>)

  /**
   What the fast path takes from a queue, whatever the health flags: the first healthy entry
   is handed out, every unhealthy entry before the second healthy one is thrown out, and the
   queue is left starting with that second healthy entry.
   */
  function FastPop(q: seq<Entry>): Popped {
    var k := NextHealthy(q, 0);
    if k == |q| then
      Popped(None, Cargos(q), [])
    else
      var m := NextHealthy(q, k + 1);
      Popped(Some(q[k].cargo), Cargos(q[..k] + q[k + 1..m]), q[m..])
  }

  ghost function ScopedIdle(m: map<Context, seq<Entry>>): nat
    decreases |m.Keys|
  {
    if m.Keys == {} then 0
    else
      var k :| k in m.Keys;
      assert (m - {k}).Keys == m.Keys - {k};
      |m[k]| + ScopedIdle(m - {k})
  }

  ghost function TotalIdle(s: State): nat {
    |s.shared| + ScopedIdle(s.scoped)
  }

  // ---------------------------------------------------------------- leases

  function Depart(leases: map<nat, LeaseLog>, l: Option<nat>, e: Exit): map<nat, LeaseLog> {
    if l.Some? && l.value in leases then leases[l.value := leases[l.value].(exit := Some(e))] else leases
  }

  function Mark(leases: map<nat, LeaseLog>, l: Option<nat>): map<nat, LeaseLog> {
    if l.Some? && l.value in leases
    then leases[l.value := leases[l.value].(marks := leases[l.value].marks + 1)] else leases
  }

  function Drop(leases: map<nat, LeaseLog>, l: Option<nat>): map<nat, LeaseLog> {
    if l.Some? && l.value in leases
    then leases[l.value := leases[l.value].(drops := leases[l.value].drops + 1)] else leases
  }

  // ---------------------------------------------------------------- counters

  /** `fetch_sub(1)` on an `AtomicUsize` wraps. */
  function FetchSub(active: nat): nat {
    if active == 0 then USIZE_MAX else active - 1
  }

  // ---------------------------------------------------------------- the eviction sweep

  /** `duration_since` yields zero for an instant in the future. */
  predicate Expired(e: Entry, now: nat, idleTimeout: nat) {
    (if now >= e.lastUsed then now - e.lastUsed else 0) >= idleTimeout
  }

  datatype Swept = Swept(kept: seq<Entry>, evicted: seq<Entry>)

  /** One queue of a sweep: at most `budget` expired entries go, oldest position first. */
  function SweepQueue(q: seq<Entry>, budget: nat, now: nat, idleTimeout: nat): (r: Swept)
    ensures |r.evicted| <= budget && |r.kept| + |r.evicted| == |q|
  {
    if q == [] then Swept([], [])
    else
      var r := SweepQueue(q[..|q| - 1], budget, now, idleTimeout);
      var e := q[|q| - 1];
      if |r.evicted| < budget && Expired(e, now, idleTimeout)
      then Swept(r.kept, r.evicted + [e])
      else Swept(r.kept + [e], r.evicted)
  }

  datatype SweptScoped = SweptScoped(scoped: map<Context, seq<Entry>>, evicted: seq<Entry>)

  /** The scoped queues of a sweep, in the order in which the hash map yields its keys. */
  function SweepScoped(m: map<Context, seq<Entry>>, order: seq<Context>, budget: nat, now: nat, idleTimeout: nat)
    : (r: SweptScoped)
    ensures |r.evicted| <= budget
    ensures r.scoped.Keys == m.Keys
  {
    if order == [] then SweptScoped(m, [])
    else
      var r := SweepScoped(m, order[..|order| - 1], budget, now, idleTimeout);
      var id := order[|order| - 1];
      if id !in r.scoped then r
      else
        var one := SweepQueue(r.scoped[id], budget - |r.evicted|, now, idleTimeout);
        SweptScoped(r.scoped[id := one.kept], r.evicted + one.evicted)
  }

  function WithoutEmpty(m: map<Context, seq<Entry>>): map<Context, seq<Entry>> {
    map id | id in m && m[id] != [] :: m[id]
  }

  predicate IsOrderOf(order: seq<Context>, m: map<Context, seq<Entry>>) {
    && (forall j, k :: 0 <= j < k < |order| ==> order[j] != order[k])
    && (forall j :: 0 <= j < |order| ==> order[j] in m)
    && (forall id :: id in m ==> id in order)
  }

  function Min(a: nat, b: nat): nat {
    if a <= b then a else b
  }

  ghost function Budget(c: Config, s: State): nat {
    if s.active > c.min then Min(s.active - c.min, TotalIdle(s)) else 0
  }

  /** The entries a sweep that starts now will evict. */
  ghost function SweptOut(c: Config, s: State, order: seq<Context>): (out: seq<Entry>)
    ensures |out| <= Budget(c, s)
  {
    var sh := SweepQueue(s.shared, Budget(c, s), s.now, c.idleTimeout);
    sh.evicted + SweepScoped(s.scoped, order, Budget(c, s) - |sh.evicted|, s.now, c.idleTimeout).evicted
  }

  /**
   A sweep starts. Nobody else looks at the queues before it gives back the lock, so they change
   at once; the counter, the leases and the shutdowns are in reach of everyone and follow one by one.
   */
  ghost function SweepStep(c: Config, s: State, order: seq<Context>): State {
    var budget := Budget(c, s);
    var sh := SweepQueue(s.shared, budget, s.now, c.idleTimeout);
    var sc := SweepScoped(s.scoped, order, budget - |sh.evicted|, s.now, c.idleTimeout);
    s.(shared := sh.kept,
       scoped := WithoutEmpty(sc.scoped),
       locked := true,
       tasks := s.tasks + [Sweeping(Evict(SweptOut(c, s, order)))])
  }

  // ---------------------------------------------------------------- one step of one task

  function Become(s: State, i: nat, t: Task, spawned: seq<Task>): State
    requires i < |s.tasks|
  {
    s.(tasks := s.tasks[i := t] + spawned)
  }

  function WarmStep(c: Config, s: State, i: nat, pc: WarmPc, env: Env): Option<State>
    requires i < |s.tasks|
  {
    match pc
    case WarmNext(n) =>
      if n >= c.min then Some(Become(s, i, Done, []))
      else if !c.proxied then
        if env == Quiet then Some(Become(s, i, Warm(WarmPermit(n, None)), [])) else None
      else if env.Bound? && env.lease !in s.leases then
        Some(Become(s.(leases := s.leases[env.lease := LeaseLog(0, 0, None)]),
                    i, Warm(WarmPermit(n, Some(env.lease))), []))
      else if env == BindFailed then Some(Become(s, i, Warm(WarmNext(n + 1)), []))
      else None
    case WarmPermit(n, lease) =>
      if s.permits > 0 then
        Some(Become(s.(permits := s.permits - 1), i, Launching(Count(Warmer(n), lease)), []))
      else
        Some(Become(s.(leases := Drop(Depart(s.leases, lease, Unused), lease)), i, Done, []))
    case WarmPush(n, cargo) =>
      Some(Become(s.(shared := s.shared + [Entry(cargo, s.now)]), i, Warm(WarmNext(n + 1)), []))
  }

  function AcquireStep(c: Config, s: State, i: nat, pc: AcqPc, env: Env): Option<State>
    requires i < |s.tasks|
  {
    match pc
    case Start(ctx) => Some(Become(s, i, Acq(Fast(ctx, s.active)), []))
    case Fast(ctx, active) =>
      var p := FastPop(GetQueue(s, ctx));
      if s.locked then None
      else Some(Become(PutBack(s, ctx, p.rest), i, Acq(Dispose(ctx, active, p.found, p.unhealthy)), []))
    case Dispose(ctx, active, found, rest) =>
      if rest != [] then
        var l := rest[0].lease;
        Some(Become(s.(leases := Drop(Depart(s.leases, l, IdleUnhealthy), l)),
                    i, Acq(Dispose(ctx, active, found, rest[1..])), [Disposer(Closing(rest[0].inst))]))
      else if found.Some? then Some(Become(s, i, Held(Handle(ctx, found.value)), []))
      else if active < c.max then Some(Become(s, i, Acq(Wait(ctx, active)), []))
      else Some(Become(s, i, Acq(Poll(ctx)), []))
    case Wait(ctx, _) =>
      if env == Timeout then Some(Become(s, i, Done, []))
      else if s.permits > 0 then
        Some(Become(s.(permits := s.permits - 1), i, Launching(Count(Acquirer(ctx), None)), []))
      else None
    case Bind(ctx) =>
      if !c.proxied then
        if env == Quiet then Some(Become(s, i, Launching(Launch(Acquirer(ctx), None)), [])) else None
      else if env.Bound? && env.lease !in s.leases then
        Some(Become(s.(leases := s.leases[env.lease := LeaseLog(0, 0, None)]),
                    i, Launching(Launch(Acquirer(ctx), Some(env.lease))), []))
      else if env == BindFailed then Some(Become(s, i, Launching(Uncount(Acquirer(ctx), None)), []))
      else None
    case Poll(ctx) =>
      if env == Timeout then Some(Become(s, i, Done, []))
      else if s.locked then None
      else
        var q := GetQueue(s, ctx);
        if q == [] then Some(s)
        else
          var s' := PutBack(s, ctx, q[1..]);
          if q[0].cargo.inst.healthy then Some(Become(s', i, Held(Handle(ctx, q[0].cargo)), []))
          else Some(Become(s', i, Acq(PollDispose(ctx, q[0].cargo)), []))
    case PollDispose(ctx, cargo) =>
      Some(Become(s.(leases := Drop(Depart(s.leases, cargo.lease, IdleUnhealthy), cargo.lease)),
                  i, Acq(Poll(ctx)), [Disposer(Closing(cargo.inst))]))
  }

  function LaunchStep(s: State, i: nat, pc: LaunchPc, env: Env): Option<State>
    requires i < |s.tasks|
  {
    match pc
    case Count(who, lease) =>
      Some(Become(s.(active := s.active + 1),
                  i, if who.Acquirer? then Acq(Bind(who.ctx)) else Launching(Launch(who, lease)), []))
    case Launch(who, lease) =>
      if env.Launched? && env.id !in s.born then
        var cargo := Cargo(Instance(env.id, true), lease);
        var ctx := if who.Acquirer? then who.ctx else None;
        Some(Become(s.(born := s.born[env.id := Origin(ctx, lease)]),
                    i, if who.Acquirer? then Held(Handle(ctx, cargo)) else Warm(WarmPush(who.i, cargo)), []))
      else if env == LaunchError then
        Some(Become(s.(leases := Depart(s.leases, lease, LaunchFailed)), i, Launching(Uncount(who, lease)), []))
      else None
    case Uncount(who, lease) =>
      Some(Become(s.(active := FetchSub(s.active)), i, Launching(Unpermit(who, lease)), []))
    case Unpermit(who, lease) =>
      Some(Become(s.(permits := s.permits + 1, leases := Drop(s.leases, lease)),
                  i, if who.Acquirer? then Done else Warm(WarmNext(who.i + 1)), []))
  }

  ghost function ReleaseStep(c: Config, s: State, i: nat, pc: HandlePc, env: Env): Option<State>
    requires i < |s.tasks|
  {
    match pc
    case Handle(ctx, cargo) =>
      if env.Health? then
        Some(Become(s, i, Held(Handle(ctx, cargo.(inst := cargo.inst.(healthy := env.ok)))), []))
      else if env == Release || env == DropHandle then
        if cargo.inst.healthy then Some(Become(s, i, Held(RelLock(ctx, cargo, env == DropHandle)), []))
        else
          Some(Become(s.(leases := Depart(s.leases, cargo.lease, Unhealthy)), i, Held(RelDispose(ctx, cargo)), []))
      else None
    case RelLock(ctx, cargo, _) =>
      if s.locked then None
      else if TotalIdle(s) < c.max then
        Some(Become(SetQueue(s, ctx, GetQueue(s, ctx) + [Entry(cargo, s.now)]), i, Done, []))
      else
        Some(Become(s.(leases := Mark(Depart(s.leases, cargo.lease, PoolFull), cargo.lease)),
                    i, Held(RelDispose(ctx, cargo)), []))
    case RelDispose(_, cargo) =>
      Some(Become(s, i, Held(RelPermit(cargo.lease)), [Disposer(Closing(cargo.inst))]))
    case RelPermit(lease) =>
      Some(Become(s.(permits := s.permits + 1, leases := Drop(s.leases, lease)), i, Done, []))
  }

  function DisposerStep(s: State, i: nat, pc: DisposerPc): State
    requires i < |s.tasks|
  {
    match pc
    case Closing(inst) => Become(s.(gone := s.gone + {inst.id}), i, Disposer(Closed), [])
    case Closed => Become(s.(active := FetchSub(s.active)), i, Done, [])
    case EvictClosing(inst) => Become(s.(gone := s.gone + {inst.id}), i, Done, [])
  }

  function ContextStep(s: State, i: nat, pc: ContextPc): State
    requires i < |s.tasks|
  {
    match pc
    case CtxLock(id) =>
      Become(s.(scoped := s.scoped - {id}), i, Releasing(CtxDrain(id, GetQueue(s, Some(id)))), [])
    case CtxDrain(id, entries) =>
      if entries == [] then Become(s, i, Done, [])
      else
        var cargo := entries[0].cargo;
        Become(s.(leases := Mark(Depart(s.leases, cargo.lease, ContextReleased), cargo.lease)),
               i, Releasing(CtxPermit(id, cargo.lease, entries[1..])), [Disposer(Closing(cargo.inst))])
    case CtxPermit(id, lease, entries) =>
      Become(s.(permits := s.permits + 1, leases := Drop(s.leases, lease)), i, Releasing(CtxDrain(id, entries)), [])
  }

  function EvictStep(s: State, i: nat, pc: SweepPc): State
    requires i < |s.tasks|
  {
    match pc
    case Evict(entries) =>
      if entries == [] then Become(s.(locked := false), i, Done, [])
      else
        var cargo := entries[0].cargo;
        Become(s.(leases := Mark(Depart(s.leases, cargo.lease, Evicted), cargo.lease)),
               i, Sweeping(EvictCount(cargo.lease, entries[1..])), [Disposer(EvictClosing(cargo.inst))])
    case EvictCount(lease, entries) =>
      Become(s.(active := FetchSub(s.active), evicted := s.evicted + 1, leases := Drop(s.leases, lease)),
             i, Sweeping(Evict(entries)), [])
  }

  ghost function RunStep(c: Config, s: State, i: nat, env: Env): Option<State>
    requires i < |s.tasks|
  {
    match s.tasks[i]
    case Done => None
    case Warm(pc) => WarmStep(c, s, i, pc, env)
    case Acq(pc) => AcquireStep(c, s, i, pc, env)
    case Launching(pc) => LaunchStep(s, i, pc, env)
    case Held(pc) => ReleaseStep(c, s, i, pc, env)
    case Disposer(pc) => Some(DisposerStep(s, i, pc))
    case Releasing(pc) => if pc.CtxLock? && s.locked then None else Some(ContextStep(s, i, pc))
    case Sweeping(pc) => Some(EvictStep(s, i, pc))
  }

  /** The await points at which dropping an `acquire` or `release_context` future loses nothing. */
  predicate Droppable(t: Task) {
    match t
    case Acq(pc) => pc.Fast? || pc.Wait? || pc.Poll?
    case Releasing(pc) => pc.CtxLock?
    case _ => false
  }

  /**
   The caller drops an `acquire` or `release` future at one of its await points. Whatever the
   future owned goes with it: a forgotten permit and a counted launch are never given back.
   */
  function CancelStep(s: State, i: nat): Option<State>
    requires i < |s.tasks|
  {
    var t := s.tasks[i];
    if Droppable(t) then Some(Become(s, i, Done, []))
    else if t.Acq? && t.acq.Bind? then Some(Become(s.(abandoned := s.abandoned + 1), i, Done, []))
    else if t.Launching? && t.launch.Launch? && t.launch.who.Acquirer? then
      var lease := t.launch.lease;
      Some(Become(s.(abandoned := s.abandoned + 1, leases := Drop(Depart(s.leases, lease, Abandoned), lease)),
                  i, Done, []))
    else if t.Held? && t.held.RelLock? && !t.held.detached then
      var cargo := t.held.cargo;
      Some(Become(s.(abandoned := s.abandoned + 1,
                     gone := s.gone + {cargo.inst.id},
                     leases := Drop(Depart(s.leases, cargo.lease, Abandoned), cargo.lease)),
                  i, Done, []))
    else None
  }

  // ---------------------------------------------------------------- runs

  /** The pool is shared with callers, and the eviction loop starts, when the warm-up is over. */
  predicate WarmedUp(s: State) {
    |s.tasks| > 0 && s.tasks[0] == Done
  }

  function Init(c: Config): State {
    State(c.max, 0, [], map[], [Warm(WarmNext(0))], false, 0, map[], map[], {}, 0, 0)
  }

  ghost function Next(c: Config, s: State, ev: Event): Option<State> {
    match ev
    case Tick(now) => if now >= s.now then Some(s.(now := now)) else None
    case Sweep(order) =>
      if WarmedUp(s) && !s.locked && IsOrderOf(order, s.scoped) then Some(SweepStep(c, s, order)) else None
    case NewAcquire(ctx) =>
      if WarmedUp(s) then Some(s.(tasks := s.tasks + [Acq(Start(ctx))])) else None
    case NewReleaseContext(id) =>
      if WarmedUp(s) then Some(s.(tasks := s.tasks + [Releasing(CtxLock(id))])) else None
    case Run(i, env) => if i < |s.tasks| then RunStep(c, s, i, env) else None
    case Cancel(i) => if i < |s.tasks| then CancelStep(s, i) else None
  }

  /** The state after a whole interleaving from `s`, or `None` when some event cannot happen. */
  ghost function Exec(c: Config, s: State, events: seq<Event>): Option<State> {
    if events == [] then Some(s)
    else
      var before := Exec(c, s, events[..|events| - 1]);
      if before.None? then None else Next(c, before.value, events[|events| - 1])
  }

  ghost predicate Reachable(c: Config, s: State) {
    exists events :: Exec(c, Init(c), events) == Some(s)
  }
}
