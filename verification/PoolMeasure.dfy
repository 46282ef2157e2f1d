/**
 Counting over a pool state. A `Weight` gives every holder (a queued entry, a task) a number;
 `Total` adds the numbers up over the whole state. All the conservation laws of the pool are
 laws about these totals, so one lemma about how a step changes a total serves them all.
 */
module PoolMeasure {
  import opened Options
  import opened PoolModel

  datatype Weight =
    | Slot               // accounts for one of the `max` units of capacity
    | Counted            // will still be subtracted from `active_count`
    | OfInst(id: nat)    // holds instance `id`
    | Serving(lease: nat) // holds the lease, before the decision to let it go
    | Leaving(lease: nat) // holds the lease, after that decision

  function LeaseW(w: Weight, lease: Option<nat>, serving: bool): nat {
    match w
    case Serving(l) => if serving && lease == Some(l) then 1 else 0
    case Leaving(l) => if !serving && lease == Some(l) then 1 else 0
    case _ => 0
  }

  function InstW(w: Weight, inst: Instance): nat {
    match w
    case OfInst(id) => if inst.id == id then 1 else 0
    case _ => 0
  }

  function CargoW(w: Weight, c: Cargo): nat {
    if w.Slot? || w.Counted? then 1 else InstW(w, c.inst) + LeaseW(w, c.lease, true)
  }

  function EntriesW(w: Weight, q: seq<Entry>): nat {
    if q == [] then 0 else EntriesW(w, q[..|q| - 1]) + CargoW(w, q[|q| - 1].cargo)
  }

  function CargosW(w: Weight, q: seq<Cargo>): nat {
    if q == [] then 0 else CargosW(w, q[..|q| - 1]) + CargoW(w, q[|q| - 1])
  }

  function OneIf(b: bool): nat {
    if b then 1 else 0
  }

  function WarmW(w: Weight, pc: WarmPc): nat {
    match pc
    case WarmNext(_) => 0
    case WarmPermit(_, lease) => LeaseW(w, lease, true)
    case WarmPush(_, cargo) => CargoW(w, cargo)
  }

  function AcqW(w: Weight, pc: AcqPc): nat {
    match pc
    case Start(_) => 0
    case Fast(_, _) => 0
    case Dispose(_, _, found, rest) => (if found.Some? then CargoW(w, found.value) else 0) + CargosW(w, rest)
    case Wait(_, _) => 0
    case Bind(_) => OneIf(w.Slot? || w.Counted?)
    case Poll(_) => 0
    case PollDispose(_, cargo) => CargoW(w, cargo)
  }

  function LaunchW(w: Weight, pc: LaunchPc): nat {
    match pc
    case Count(_, lease) => OneIf(w.Slot?) + LeaseW(w, lease, true)
    case Launch(_, lease) => OneIf(w.Slot? || w.Counted?) + LeaseW(w, lease, true)
    case Uncount(_, lease) => OneIf(w.Slot? || w.Counted?) + LeaseW(w, lease, false)
    case Unpermit(_, lease) => OneIf(w.Slot?) + LeaseW(w, lease, false)
  }

  function HandleW(w: Weight, pc: HandlePc): nat {
    match pc
    case Handle(_, cargo) => CargoW(w, cargo)
    case RelLock(_, cargo, _) => CargoW(w, cargo)
    case RelDispose(_, cargo) =>
      OneIf(w.Slot? || w.Counted?) + InstW(w, cargo.inst) + LeaseW(w, cargo.lease, false)
    case RelPermit(lease) => OneIf(w.Slot?) + LeaseW(w, lease, false)
  }

  function DisposerW(w: Weight, pc: DisposerPc): nat {
    match pc
    case Closing(inst) => OneIf(w.Counted?) + InstW(w, inst)
    case Closed => OneIf(w.Counted?)
    case EvictClosing(inst) => InstW(w, inst)
  }

  function ContextW(w: Weight, pc: ContextPc): nat {
    match pc
    case CtxLock(_) => 0
    case CtxDrain(_, entries) => EntriesW(w, entries)
    case CtxPermit(_, lease, entries) => OneIf(w.Slot?) + LeaseW(w, lease, false) + EntriesW(w, entries)
  }

  function SweepW(w: Weight, pc: SweepPc): nat {
    match pc
    case Evict(entries) => EntriesW(w, entries)
    case EvictCount(lease, entries) =>
      OneIf(w.Slot? || w.Counted?) + LeaseW(w, lease, false) + EntriesW(w, entries)
  }

  function TaskW(w: Weight, t: Task): nat {
    match t
    case Done => 0
    case Warm(pc) => WarmW(w, pc)
    case Acq(pc) => AcqW(w, pc)
    case Launching(pc) => LaunchW(w, pc)
    case Held(pc) => HandleW(w, pc)
    case Disposer(pc) => DisposerW(w, pc)
    case Releasing(pc) => ContextW(w, pc)
    case Sweeping(pc) => SweepW(w, pc)
  }

  function TasksW(w: Weight, ts: seq<Task>): nat {
    if ts == [] then 0 else TasksW(w, ts[..|ts| - 1]) + TaskW(w, ts[|ts| - 1])
  }

  ghost function ScopedW(w: Weight, m: map<Context, seq<Entry>>): nat
    decreases |m.Keys|
  {
    if m.Keys == {} then 0
    else
      var k :| k in m.Keys;
      assert (m - {k}).Keys == m.Keys - {k};
      EntriesW(w, m[k]) + ScopedW(w, m - {k})
  }

  ghost function Total(w: Weight, s: State): nat {
    EntriesW(w, s.shared) + ScopedW(w, s.scoped) + TasksW(w, s.tasks)
  }

  // ---------------------------------------------------------------- sequences

  lemma {:induction false} EntriesAppend(w: Weight, a: seq<Entry>, b: seq<Entry>)
    ensures EntriesW(w, a + b) == EntriesW(w, a) + EntriesW(w, b)
    decreases |b|
  {
    if b == [] {
      assert a + b == a;
    } else {
      assert (a + b)[..|a + b| - 1] == a + b[..|b| - 1];
      EntriesAppend(w, a, b[..|b| - 1]);
    }
  }

  lemma EntriesOne(w: Weight, e: Entry)
    ensures EntriesW(w, [e]) == CargoW(w, e.cargo)
  {
    assert [e][..0] == [];
  }

  lemma EntriesSnoc(w: Weight, q: seq<Entry>, e: Entry)
    ensures EntriesW(w, q + [e]) == EntriesW(w, q) + CargoW(w, e.cargo)
  {
    EntriesAppend(w, q, [e]);
    EntriesOne(w, e);
  }

  lemma EntriesHead(w: Weight, q: seq<Entry>)
    requires q != []
    ensures EntriesW(w, q) == CargoW(w, q[0].cargo) + EntriesW(w, q[1..])
  {
    assert q == [q[0]] + q[1..];
    EntriesAppend(w, [q[0]], q[1..]);
    EntriesOne(w, q[0]);
  }

  lemma {:induction false} EntriesSlots(q: seq<Entry>)
    ensures EntriesW(Slot, q) == |q| && EntriesW(Counted, q) == |q|
  {
    if q != [] { EntriesSlots(q[..|q| - 1]); }
  }

  lemma {:induction false} EntryWithin(w: Weight, q: seq<Entry>, k: nat)
    requires k < |q|
    ensures CargoW(w, q[k].cargo) <= EntriesW(w, q)
  {
    if k < |q| - 1 { EntryWithin(w, q[..|q| - 1], k); }
  }

  lemma {:induction false} TasksAppend(w: Weight, a: seq<Task>, b: seq<Task>)
    ensures TasksW(w, a + b) == TasksW(w, a) + TasksW(w, b)
    decreases |b|
  {
    if b == [] {
      assert a + b == a;
    } else {
      assert (a + b)[..|a + b| - 1] == a + b[..|b| - 1];
      TasksAppend(w, a, b[..|b| - 1]);
    }
  }

  lemma TasksOne(w: Weight, t: Task)
    ensures TasksW(w, [t]) == TaskW(w, t)
  {
    assert [t][..0] == [];
  }

  /** The total of all tasks but the one at `i`. */
  function OthersW(w: Weight, ts: seq<Task>, i: nat): nat
    requires i < |ts|
  {
    TasksW(w, ts[..i]) + TasksW(w, ts[i + 1..])
  }

  lemma TasksSplit(w: Weight, ts: seq<Task>, i: nat)
    requires i < |ts|
    ensures TasksW(w, ts) == OthersW(w, ts, i) + TaskW(w, ts[i])
  {
    assert ts == ts[..i] + ([ts[i]] + ts[i + 1..]);
    TasksAppend(w, ts[..i], [ts[i]] + ts[i + 1..]);
    TasksAppend(w, [ts[i]], ts[i + 1..]);
    TasksOne(w, ts[i]);
  }

  lemma TasksChange(w: Weight, ts: seq<Task>, i: nat, t: Task, spawned: seq<Task>)
    requires i < |ts|
    ensures TasksW(w, ts) == OthersW(w, ts, i) + TaskW(w, ts[i])
    ensures TasksW(w, ts[i := t] + spawned) == OthersW(w, ts, i) + TaskW(w, t) + TasksW(w, spawned)
  {
    hide TaskW, TasksW;
    TasksSplit(w, ts, i);
    TasksSplit(w, ts[i := t], i);
    assert ts[i := t][..i] == ts[..i] && ts[i := t][i + 1..] == ts[i + 1..];
    TasksAppend(w, ts[i := t], spawned);
  }

  // ---------------------------------------------------------------- the scoped queues

  /** The queue the sum starts with. */
  lemma ScopedFirst(w: Weight, m: map<Context, seq<Entry>>) returns (k: Context)
    requires m.Keys != {}
    ensures k in m && ScopedW(w, m) == EntriesW(w, m[k]) + ScopedW(w, m - {k})
  {
    hide EntriesW;
    k :| k in m.Keys && ScopedW(w, m) == EntriesW(w, m[k]) + ScopedW(w, m - {k});
  }

  lemma Minus(m: map<Context, seq<Entry>>, k: Context, id: Context)
    requires k in m && id in m && k != id
    ensures |(m - {k}).Keys| < |m.Keys| && id in m - {k} && (m - {k})[id] == m[id]
    ensures m - {k} - {id} == m - {id} - {k}
  {
    assert (m - {k}).Keys == m.Keys - {k};
  }

  lemma {:induction false} ScopedSplit(w: Weight, m: map<Context, seq<Entry>>, id: Context)
    requires id in m
    ensures ScopedW(w, m) == EntriesW(w, m[id]) + ScopedW(w, m - {id})
    decreases |m.Keys|
  {
    hide EntriesW, ScopedW;
    var k := ScopedFirst(w, m);
    if k != id {
      Minus(m, k, id);
      Minus(m, id, k);
      ScopedSplit(w, m - {k}, id);
      ScopedSplit(w, m - {id}, k);
    }
  }

  lemma ScopedSet(w: Weight, m: map<Context, seq<Entry>>, id: Context, q: seq<Entry>)
    ensures ScopedW(w, m[id := q]) == EntriesW(w, q) + ScopedW(w, m - {id})
  {
    ScopedSplit(w, m[id := q], id);
    assert m[id := q] - {id} == m - {id};
  }

  lemma {:induction false} ScopedSlots(m: map<Context, seq<Entry>>)
    ensures ScopedW(Slot, m) == ScopedIdle(m)
    decreases |m.Keys|
  {
    if m.Keys != {} {
      var k :| k in m.Keys && ScopedIdle(m) == |m[k]| + ScopedIdle(m - {k});
      assert (m - {k}).Keys == m.Keys - {k};
      ScopedSlots(m - {k});
      ScopedSplit(Slot, m, k);
      EntriesSlots(m[k]);
    }
  }

  /** Everything outside the queue of `ctx`. */
  ghost function OtherQueuesW(w: Weight, s: State, ctx: Option<Context>): nat {
    match ctx
    case None => ScopedW(w, s.scoped)
    case Some(id) => EntriesW(w, s.shared) + ScopedW(w, s.scoped - {id})
  }

  lemma QueueSplit(w: Weight, s: State, ctx: Option<Context>)
    ensures EntriesW(w, s.shared) + ScopedW(w, s.scoped) == OtherQueuesW(w, s, ctx) + EntriesW(w, GetQueue(s, ctx))
  {
    if ctx.Some? {
      if ctx.value in s.scoped {
        ScopedSplit(w, s.scoped, ctx.value);
      } else {
        assert s.scoped - {ctx.value} == s.scoped;
      }
    }
  }

  // ---------------------------------------------------------------- one step

  /**
   A task at `i` becomes `t`, spawns `spawned`, and leaves `q` in the queue of `ctx`: every
   total changes by exactly these amounts, and `rest` is what the step did not touch.
   */
  lemma StepTotal(w: Weight, s: State, s': State, i: nat, t: Task, spawned: seq<Task>,
                  ctx: Option<Context>, q: seq<Entry>)
    returns (rest: nat)
    requires i < |s.tasks|
    requires s'.tasks == s.tasks[i := t] + spawned
    requires GetQueue(s', ctx) == q
    requires ctx.None? ==> s'.scoped == s.scoped
    requires ctx.Some? ==> s'.shared == s.shared && s'.scoped - {ctx.value} == s.scoped - {ctx.value}
    ensures Total(w, s) == rest + TaskW(w, s.tasks[i]) + EntriesW(w, GetQueue(s, ctx))
    ensures Total(w, s') == rest + TaskW(w, t) + TasksW(w, spawned) + EntriesW(w, q)
  {
    hide TaskW, TasksW, EntriesW, ScopedW, OthersW;
    rest := OthersW(w, s.tasks, i) + OtherQueuesW(w, s, ctx);
    TasksChange(w, s.tasks, i, t, spawned);
    QueueSplit(w, s, ctx);
    QueueSplit(w, s', ctx);
  }

  /** What a single task or a single queue holds is part of the total. */
  lemma TaskWithin(w: Weight, s: State, i: nat)
    requires i < |s.tasks|
    ensures TaskW(w, s.tasks[i]) <= Total(w, s)
  {
    TasksSplit(w, s.tasks, i);
  }

  lemma QueueWithin(w: Weight, s: State, ctx: Option<Context>)
    ensures EntriesW(w, GetQueue(s, ctx)) <= Total(w, s)
  {
    QueueSplit(w, s, ctx);
  }
}
