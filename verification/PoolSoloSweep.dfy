/**
 A sweep nobody interrupts: its events, one after the other, and the state they lead to.
 */
module PoolSoloSweep {
  import opened Options
  import opened PoolModel
  import opened PoolRuns

  function Shutdowns(es: seq<Entry>): (r: seq<Task>)
    ensures |r| == |es| && forall j :: 0 <= j < |es| ==> r[j] == Disposer(EvictClosing(es[j].cargo.inst))
  {
    seq(|es|, j requires 0 <= j < |es| => Disposer(EvictClosing(es[j].cargo.inst)))
  }

  lemma ShutdownsAppend(a: seq<Entry>, b: seq<Entry>)
    ensures Shutdowns(a + b) == Shutdowns(a) + Shutdowns(b)
  {
  }

  lemma ShutdownsOne(e: Entry)
    ensures Shutdowns([e]) == [Disposer(EvictClosing(e.cargo.inst))]
  {
  }

  lemma NothingSwept(leases: map<nat, LeaseLog>, budget: nat, now: nat, idleTimeout: nat)
    ensures SweepQueue([], budget, now, idleTimeout) == Swept([], [])
    ensures ClearLeases(leases, [], Evicted) == leases && Shutdowns([]) == []
  {
  }

  // ---------------------------------------------------------------- the run

  /** The two steps of one eviction, `n` times over, by the sweep at `j`. */
  function Turns(j: nat, n: nat): seq<Event> {
    if n == 0 then [] else Turns(j, n - 1) + [Run(j, Quiet)] + [Run(j, Quiet)]
  }

  function SweepEvents(order: seq<Context>, j: nat, n: nat): seq<Event> {
    [Sweep(order)] + Turns(j, n) + [Run(j, Quiet)]
  }

  /** The sweep at `j`, which decided on `out`, has dealt with `k` of its entries. */
  function Partly(s: State, j: nat, out: seq<Entry>, k: nat): State
    requires j < |s.tasks| && k <= |out| <= s.active
  {
    s.(active := s.active - k, evicted := s.evicted + k, leases := ClearLeases(s.leases, out[..k], Evicted),
       tasks := s.tasks[j := Sweeping(Evict(out[k..]))] + Shutdowns(out[..k]))
  }

  lemma EvictOne(c: Config, s: State, j: nat, out: seq<Entry>, k: nat) returns (mid: State)
    requires j < |s.tasks| && k < |out| <= s.active
    ensures Next(c, Partly(s, j, out, k), Run(j, Quiet)) == Some(mid)
    ensures Next(c, mid, Run(j, Quiet)) == Some(Partly(s, j, out, k + 1))
  {
    hide ClearLeases, Mark, Depart, Drop, RunStep;
    var before, e := Partly(s, j, out, k), out[k];
    assert before.tasks[j] == Sweeping(Evict(out[k..])) && out[k..][0] == e && out[k..][1..] == out[k + 1..];
    mid := EvictStep(before, j, Evict(out[k..]));
    ClearLeasesSnoc(s.leases, out[..k], e, Evicted);
    ShutdownsAppend(out[..k], [e]);
    ShutdownsOne(e);
    assert out[..k + 1] == out[..k] + [e];
    assert Partly(s, j, out, k + 1).tasks == mid.tasks[j := Sweeping(Evict(out[k + 1..]))] + [];
    SweepingRuns(c, before, j);
    SweepingRuns(c, mid, j);
  }

  lemma {:induction false} TurnsRun(c: Config, s: State, j: nat, out: seq<Entry>, k: nat)
    requires j < |s.tasks| && s.tasks[j] == Sweeping(Evict(out)) && k <= |out| <= s.active
    ensures Exec(c, s, Turns(j, k)) == Some(Partly(s, j, out, k))
  {
    hide Exec, Next;
    if k == 0 {
      ExecNone(c, s);
      NothingSwept(s.leases, 0, 0, 0);
      assert out[..0] == [] && out[0..] == out;
      assert Partly(s, j, out, 0).tasks == s.tasks;
    } else {
      TurnsRun(c, s, j, out, k - 1);
      var mid := EvictOne(c, s, j, out, k - 1);
      ExecSnoc(c, s, Turns(j, k - 1), Partly(s, j, out, k - 1), Run(j, Quiet), mid);
      ExecSnoc(c, s, Turns(j, k - 1) + [Run(j, Quiet)], mid, Run(j, Quiet), Partly(s, j, out, k));
    }
  }

  /** The state after a whole sweep. */
  ghost function AfterSweep(c: Config, s: State, order: seq<Context>): State {
    var out := SweptOut(c, s, order);
    SweepStep(c, s, order).(locked := false, active := s.active - |out|, evicted := s.evicted + |out|,
                            leases := ClearLeases(s.leases, out, Evicted), tasks := s.tasks + [Done] + Shutdowns(out))
  }

  lemma SweepStarts(c: Config, s: State, order: seq<Context>)
    requires WarmedUp(s) && !s.locked && IsOrderOf(order, s.scoped)
    ensures var s1 := SweepStep(c, s, order);
            && Next(c, s, Sweep(order)) == Some(s1) && s1.active == s.active && s1.leases == s.leases
            && s1.tasks == s.tasks + [Sweeping(Evict(SweptOut(c, s, order)))] && |SweptOut(c, s, order)| <= s.active
  {
    hide SweptOut, SweepQueue, SweepScoped, ScopedIdle;
  }

  lemma SweepEnds(c: Config, last: State, ts: seq<Task>, more: seq<Task>)
    requires last.tasks == ts + [Sweeping(Evict([]))] + more
    ensures Next(c, last, Run(|ts|, Quiet)) == Some(last.(locked := false, tasks := ts + [Done] + more))
  {
    TurnOver(ts, Sweeping(Evict([])), more, Done);
    assert last.tasks[|ts|] == Sweeping(Evict([]));
    SweepingRuns(c, last, |ts|);
    hide Next;
  }

  lemma AllOut(s: State, ts: seq<Task>, out: seq<Entry>)
    requires s.tasks == ts + [Sweeping(Evict(out))] && |out| <= s.active
    ensures Partly(s, |ts|, out, |out|)
         == s.(active := s.active - |out|, evicted := s.evicted + |out|, leases := ClearLeases(s.leases, out, Evicted),
               tasks := ts + [Sweeping(Evict([]))] + Shutdowns(out))
  {
    hide ClearLeases, Shutdowns;
    Ends(out);
    LastTask(ts, Sweeping(Evict(out)), Sweeping(Evict([])));
  }

  lemma Ends(out: seq<Entry>)
    ensures out[..|out|] == out && out[|out|..] == []
  {
  }

  lemma LastTask(ts: seq<Task>, t: Task, t': Task)
    ensures (ts + [t])[|ts| := t'] == ts + [t']
  {
  }

  lemma TurnOver(ts: seq<Task>, t: Task, more: seq<Task>, t': Task)
    ensures (ts + [t] + more)[|ts| := t'] == ts + [t'] + more && (ts + [t'] + more)[|ts|] == t'
    ensures (ts + [t] + more)[|ts| := t'] + [] == ts + [t'] + more
  {
  }

  lemma SweepingRuns(c: Config, s: State, j: nat)
    requires j < |s.tasks| && s.tasks[j].Sweeping?
    ensures Next(c, s, Run(j, Quiet)) == Some(EvictStep(s, j, s.tasks[j].sweep))
  {
    hide EvictStep;
  }

  lemma SweepRuns(c: Config, s: State, order: seq<Context>)
    requires WarmedUp(s) && !s.locked && IsOrderOf(order, s.scoped)
    ensures Exec(c, s, SweepEvents(order, |s.tasks|, |SweptOut(c, s, order)|)) == Some(AfterSweep(c, s, order))
  {
    hide Exec, Next, SweptOut, Turns, Partly;
    var out, j, s1 := SweptOut(c, s, order), |s.tasks|, SweepStep(c, s, order);
    SweepStarts(c, s, order);
    assert s1.evicted == s.evicted;
    hide SweepStep;
    ExecNone(c, s);
    ExecSnoc(c, s, [], s, Sweep(order), s1);
    assert [] + [Sweep(order)] == [Sweep(order)];
    TurnsRun(c, s1, j, out, |out|);
    ExecAppend(c, s, [Sweep(order)], s1, Turns(j, |out|), Partly(s1, j, out, |out|));
    AllOut(s1, s.tasks, out);
    SweepEnds(c, Partly(s1, j, out, |out|), s.tasks, Shutdowns(out));
    ExecSnoc(c, s, [Sweep(order)] + Turns(j, |out|), Partly(s1, j, out, |out|), Run(j, Quiet), AfterSweep(c, s, order));
  }

  /** The entries evicted in the two parts of a sweep are those it decided on. */
  lemma SweptInTwo(c: Config, s: State, order: seq<Context>, kept: seq<Entry>, first: seq<Entry>,
                   scoped: map<Context, seq<Entry>>, out: seq<Entry>, s': State)
    requires WarmedUp(s) && !s.locked && IsOrderOf(order, s.scoped)
    requires Swept(kept, first) == SweepQueue(s.shared, Budget(c, s), s.now, c.idleTimeout)
    requires SweptScoped(scoped, out)
          == SweepScoped(s.scoped, order, Budget(c, s) - |first|, s.now, c.idleTimeout)
    requires |first + out| <= s.active
    requires s' == s.(shared := kept, scoped := WithoutEmpty(scoped), active := s.active - |first + out|,
                      evicted := s.evicted + |first + out|, leases := ClearLeases(s.leases, first + out, Evicted),
                      tasks := s.tasks + [Done] + Shutdowns(first + out))
    ensures SweptOut(c, s, order) == first + out
    ensures Exec(c, s, SweepEvents(order, |s.tasks|, |first + out|)) == Some(s')
  {
    hide SweepQueue, SweepScoped, ScopedIdle, Exec, ClearLeases, Shutdowns, WithoutEmpty, SweepEvents;
    SweptOutIs(c, s, order, kept, first, scoped, out);
    hide SweptOut, SweepStep, Budget;
    assert s' == AfterSweep(c, s, order);
    SweepRuns(c, s, order);
  }

  lemma SweptOutIs(c: Config, s: State, order: seq<Context>, kept: seq<Entry>, first: seq<Entry>,
                   scoped: map<Context, seq<Entry>>, out: seq<Entry>)
    requires Swept(kept, first) == SweepQueue(s.shared, Budget(c, s), s.now, c.idleTimeout)
    requires SweptScoped(scoped, out)
          == SweepScoped(s.scoped, order, Budget(c, s) - |first|, s.now, c.idleTimeout)
    ensures SweptOut(c, s, order) == first + out
    ensures SweepStep(c, s, order)
         == s.(shared := kept, scoped := WithoutEmpty(scoped), locked := true,
               tasks := s.tasks + [Sweeping(Evict(first + out))])
  {
    hide SweepQueue, SweepScoped, ScopedIdle, WithoutEmpty;
  }
}
