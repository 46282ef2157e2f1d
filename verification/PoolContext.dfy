/**
 `release_context`: the queue of a context is taken at once, and then each of its browsers goes: its lease is
 marked and dropped, its shutdown starts, and its permit comes back.
 */
module PoolContext {
  import opened Options
  import opened PoolModel
  import opened PoolRuns
  import opened PoolCallers
  import opened PoolCalls
  import opened PoolSoloSweep
  import opened PoolMeasure

  predicate Takes(s: State, i: nat) {
    i < |s.tasks| && s.tasks[i].Releasing? && s.tasks[i].context.CtxLock?
  }

  /** The first step waits for a sweep to end, and else takes the whole queue of the context and leaves none. */
  lemma TakesContext(c: Config, s: State, i: nat, env: Env)
    requires Takes(s, i)
    ensures var id := s.tasks[i].context.id;
            var q, next := GetQueue(s, Some(id)), Next(c, s, Run(i, env));
            if s.locked then next == None
            else
              && next.Some? && id !in next.value.scoped
              && OnlyQueue(s, next.value, Some(id), [], s.tasks[i := Releasing(CtxDrain(id, q))])
  {
    var id := s.tasks[i].context.id;
    BecomePut(s.(scoped := s.scoped - {id}), i, Releasing(CtxDrain(id, GetQueue(s, Some(id)))));
  }

  // ---------------------------------------------------------------- the whole call

  /** The events of a call that releases `n` browsers, with nobody else's between them. */
  function ContextEvents(i: nat, n: nat): seq<Event> {
    [Run(i, Quiet)] + Turns(i, n) + [Run(i, Quiet)]
  }

  function Closings(es: seq<Entry>): (r: seq<Task>)
    ensures |r| == |es| && forall j :: 0 <= j < |es| ==> r[j] == Disposer(Closing(es[j].cargo.inst))
  {
    seq(|es|, j requires 0 <= j < |es| => Disposer(Closing(es[j].cargo.inst)))
  }

  /** The call at `i`, which took `q`, has dealt with `k` of its entries. */
  function Drained(s: State, i: nat, id: Context, q: seq<Entry>, k: nat): State
    requires i < |s.tasks| && k <= |q|
  {
    s.(permits := s.permits + k, leases := ClearLeases(s.leases, q[..k], ContextReleased),
       tasks := s.tasks[i := Releasing(CtxDrain(id, q[k..]))] + Closings(q[..k]))
  }

  lemma ReleasingRuns(c: Config, s: State, i: nat)
    requires i < |s.tasks| && s.tasks[i].Releasing? && !s.tasks[i].context.CtxLock?
    ensures Next(c, s, Run(i, Quiet)) == Some(ContextStep(s, i, s.tasks[i].context))
  {
    hide ContextStep;
  }

  lemma ClosingsSnoc(q: seq<Entry>, k: nat)
    requires k < |q|
    ensures Closings(q[..k + 1]) == Closings(q[..k]) + [Disposer(Closing(q[k].cargo.inst))]
  {
  }

  lemma DrainOne(c: Config, s: State, i: nat, id: Context, q: seq<Entry>, k: nat) returns (mid: State)
    requires i < |s.tasks| && k < |q|
    ensures Next(c, Drained(s, i, id, q, k), Run(i, Quiet)) == Some(mid)
    ensures Next(c, mid, Run(i, Quiet)) == Some(Drained(s, i, id, q, k + 1))
  {
    hide ClearLeases, Mark, Depart, Drop, RunStep, Closings;
    var before, e := Drained(s, i, id, q, k), q[k];
    assert before.tasks[i] == Releasing(CtxDrain(id, q[k..])) && q[k..][0] == e && q[k..][1..] == q[k + 1..];
    mid := ContextStep(before, i, CtxDrain(id, q[k..]));
    ClearLeasesSnoc(s.leases, q[..k], e, ContextReleased);
    ClosingsSnoc(q, k);
    assert q[..k + 1] == q[..k] + [e];
    assert Drained(s, i, id, q, k + 1).tasks == mid.tasks[i := Releasing(CtxDrain(id, q[k + 1..]))] + [];
    ReleasingRuns(c, before, i);
    ReleasingRuns(c, mid, i);
  }

  lemma {:induction false} TurnsDrain(c: Config, s: State, i: nat, id: Context, q: seq<Entry>, k: nat)
    requires i < |s.tasks| && s.tasks[i] == Releasing(CtxDrain(id, q)) && k <= |q|
    ensures Exec(c, s, Turns(i, k)) == Some(Drained(s, i, id, q, k))
  {
    hide Exec, Next;
    if k == 0 {
      ExecNone(c, s);
      NoneCleared(s.leases);
      assert q[..0] == [] && q[0..] == q;
      assert Drained(s, i, id, q, 0).tasks == s.tasks;
    } else {
      TurnsDrain(c, s, i, id, q, k - 1);
      var mid := DrainOne(c, s, i, id, q, k - 1);
      ExecSnoc(c, s, Turns(i, k - 1), Drained(s, i, id, q, k - 1), Run(i, Quiet), mid);
      ExecSnoc(c, s, Turns(i, k - 1) + [Run(i, Quiet)], mid, Run(i, Quiet), Drained(s, i, id, q, k));
    }
  }

  lemma NoneCleared(leases: map<nat, LeaseLog>)
    ensures ClearLeases(leases, [], ContextReleased) == leases && Closings([]) == []
  {
  }

  /** The state after a whole call: the context is gone, and each of its browsers is on its way out. */
  function AfterRelease(s: State, i: nat, id: Context): State
    requires i < |s.tasks|
  {
    var q := GetQueue(s, Some(id));
    Released(s, i, id, q, |q|)
  }

  function Released(s: State, i: nat, id: Context, q: seq<Entry>, k: nat): State
    requires i < |s.tasks| && k <= |q|
  {
    s.(scoped := s.scoped - {id}, permits := s.permits + k,
       leases := ClearLeases(s.leases, q[..k], ContextReleased), tasks := s.tasks[i := Done] + Closings(q[..k]))
  }

  lemma DoneAmong(ts: seq<Task>, i: nat, t: Task, more: seq<Task>)
    requires i < |ts|
    ensures (ts[i := t] + more)[i] == t && (ts[i := t] + more)[i := Done] + [] == ts[i := Done] + more
  {
  }

  lemma NothingLeft(c: Config, s: State, i: nat, id: Context)
    requires i < |s.tasks| && s.tasks[i] == Releasing(CtxDrain(id, []))
    ensures Next(c, s, Run(i, Quiet)) == Some(s.(tasks := s.tasks[i := Done] + []))
  {
  }

  lemma DrainEnds(c: Config, s: State, i: nat, id: Context, q: seq<Entry>)
    requires i < |s.tasks|
    ensures Next(c, Drained(s, i, id, q, |q|), Run(i, Quiet))
         == Some(s.(permits := s.permits + |q|, leases := ClearLeases(s.leases, q, ContextReleased),
                    tasks := s.tasks[i := Done] + Closings(q)))
  {
    hide ClearLeases, Closings, Next;
    var last := Drained(s, i, id, q, |q|);
    assert q[..|q|] == q && q[|q|..] == [];
    assert last.tasks == s.tasks[i := Releasing(CtxDrain(id, []))] + Closings(q);
    DoneAmong(s.tasks, i, Releasing(CtxDrain(id, [])), Closings(q));
    NothingLeft(c, last, i, id);
  }

  lemma NoneReleased(s: State, i: nat, id: Context, q: seq<Entry>)
    requires i < |s.tasks|
    ensures Released(s, i, id, q, 0) == s.(scoped := s.scoped - {id}, tasks := s.tasks[i := Done])
  {
    hide ClearLeases, Closings;
    NoneCleared(s.leases);
    assert q[..0] == [];
  }

  lemma ReleasedSnoc(s: State, i: nat, id: Context, q: seq<Entry>, k: nat)
    requires i < |s.tasks| && k < |q|
    ensures var e, r := q[k], Released(s, i, id, q, k);
            Released(s, i, id, q, k + 1)
            == r.(permits := r.permits + 1,
                  leases := Drop(Mark(Depart(r.leases, e.cargo.lease, ContextReleased), e.cargo.lease), e.cargo.lease),
                  tasks := r.tasks + [Disposer(Closing(e.cargo.inst))])
  {
    hide ClearLeases, Closings, Depart, Mark, Drop;
    ClearLeasesSnoc(s.leases, q[..k], q[k], ContextReleased);
    ClosingsSnoc(q, k);
    assert q[..k + 1] == q[..k] + [q[k]];
  }

  /**
   A call nobody interrupts releases exactly the browsers of its context: their permits are free at once, and
   the counter is left to their shutdowns.
   */
  lemma ReleaseContextRuns(c: Config, s: State, i: nat)
    requires Takes(s, i) && !s.locked
    ensures var id := s.tasks[i].context.id;
            Exec(c, s, ContextEvents(i, |GetQueue(s, Some(id))|)) == Some(AfterRelease(s, i, id))
  {
    hide Exec, Next, Turns, Drained, ClearLeases, Closings;
    var id := s.tasks[i].context.id;
    var q := GetQueue(s, Some(id));
    var s1 := s.(scoped := s.scoped - {id}, tasks := s.tasks[i := Releasing(CtxDrain(id, q))]);
    FirstStep(c, s, i);
    ExecNone(c, s);
    ExecSnoc(c, s, [], s, Run(i, Quiet), s1);
    assert [] + [Run(i, Quiet)] == [Run(i, Quiet)];
    TurnsDrain(c, s1, i, id, q, |q|);
    ExecAppend(c, s, [Run(i, Quiet)], s1, Turns(i, |q|), Drained(s1, i, id, q, |q|));
    DrainEnds(c, s1, i, id, q);
    assert q[..|q|] == q;
    assert s1.tasks[i := Done] == s.tasks[i := Done];
    ExecSnoc(c, s, [Run(i, Quiet)] + Turns(i, |q|), Drained(s1, i, id, q, |q|), Run(i, Quiet), AfterRelease(s, i, id));
  }

  lemma FirstStep(c: Config, s: State, i: nat)
    requires Takes(s, i) && !s.locked
    ensures var id := s.tasks[i].context.id;
            Next(c, s, Run(i, Quiet)) == Some(s.(scoped := s.scoped - {id},
                                                tasks := s.tasks[i := Releasing(CtxDrain(id, GetQueue(s, Some(id))))]))
  {
    var id := s.tasks[i].context.id;
    BecomePut(s.(scoped := s.scoped - {id}), i, Releasing(CtxDrain(id, GetQueue(s, Some(id)))));
  }

  /** Each lease is marked and dropped as often as an entry with it goes, and records why. */
  lemma {:induction false} ClearedLeases(leases: map<nat, LeaseLog>, es: seq<Entry>, why: Exit, l: nat)
    requires l in leases
    ensures var log, n := ClearLeases(leases, es, why), EntriesW(Serving(l), es);
            log.Keys == leases.Keys
            && log[l] == LeaseLog(leases[l].marks + n, leases[l].drops + n, if n > 0 then Some(why) else leases[l].exit)
  {
    if es != [] { ClearedLeases(leases, es[..|es| - 1], why, l); }
  }
}
