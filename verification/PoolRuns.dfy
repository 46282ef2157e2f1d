/** Composing runs of the pool out of steps. */
module PoolRuns {
  import opened Options
  import opened PoolModel

  lemma ExecNone(c: Config, s: State)
    ensures Exec(c, s, []) == Some(s)
  {
  }

  lemma ExecSnoc(c: Config, s: State, events: seq<Event>, mid: State, ev: Event, s': State)
    requires Exec(c, s, events) == Some(mid) && Next(c, mid, ev) == Some(s')
    ensures Exec(c, s, events + [ev]) == Some(s')
  {
    hide Next;
    assert (events + [ev])[..|events + [ev]| - 1] == events;
  }

  lemma {:induction false} ExecAppend(c: Config, s: State, a: seq<Event>, mid: State, b: seq<Event>, s': State)
    requires Exec(c, s, a) == Some(mid) && Exec(c, mid, b) == Some(s')
    ensures Exec(c, s, a + b) == Some(s')
    decreases |b|
  {
    hide Next;
    if b == [] {
      assert a + b == a;
    } else {
      var before := Exec(c, mid, b[..|b| - 1]).value;
      ExecAppend(c, s, a, mid, b[..|b| - 1], before);
      assert (a + b)[..|a + b| - 1] == a + b[..|b| - 1];
    }
  }

  /** Some run leads from `s` to `s'`. */
  ghost predicate Leads(c: Config, s: State, s': State) {
    exists events :: Exec(c, s, events) == Some(s')
  }

  lemma Stay(c: Config, s: State)
    ensures Leads(c, s, s)
  {
    ExecNone(c, s);
  }

  lemma Then(c: Config, s: State, mid: State, ev: Event, s': State)
    requires Leads(c, s, mid) && Next(c, mid, ev) == Some(s')
    ensures Leads(c, s, s')
  {
    hide Exec, Next;
    var events :| Exec(c, s, events) == Some(mid);
    ExecSnoc(c, s, events, mid, ev, s');
  }

  lemma KeysStay(leases: map<nat, LeaseLog>, l: Option<nat>, e: Exit)
    ensures Drop(Depart(leases, l, e), l).Keys == leases.Keys && Depart(leases, l, e).Keys == leases.Keys
  {
  }

  // ---------------------------------------------------------------- entries taken out of service

  /** What leaving for reason `why` does to the leases of entries: each is marked and dropped. */
  function ClearLeases(leases: map<nat, LeaseLog>, es: seq<Entry>, why: Exit): map<nat, LeaseLog> {
    if es == [] then leases
    else
      var l := es[|es| - 1].cargo.lease;
      Drop(Mark(Depart(ClearLeases(leases, es[..|es| - 1], why), l, why), l), l)
  }

  lemma ClearLeasesCompose(leases: map<nat, LeaseLog>, a: seq<Entry>, b: seq<Entry>, why: Exit)
    ensures ClearLeases(leases, a + b, why) == ClearLeases(ClearLeases(leases, a, why), b, why)
    decreases |b|
  {
    if b == [] {
      assert a + b == a;
    } else {
      assert (a + b)[..|a + b| - 1] == a + b[..|b| - 1];
      ClearLeasesCompose(leases, a, b[..|b| - 1], why);
    }
  }

  lemma ClearLeasesSnoc(leases: map<nat, LeaseLog>, out: seq<Entry>, e: Entry, why: Exit)
    ensures ClearLeases(leases, out + [e], why)
         == Drop(Mark(Depart(ClearLeases(leases, out, why), e.cargo.lease, why), e.cargo.lease), e.cargo.lease)
  {
    assert (out + [e])[..|out + [e]| - 1] == out;
  }

  // ---------------------------------------------------------------- the steps of a lone warm-up task

  lemma CountStep(c: Config, s: State, n: nat, lease: Option<nat>)
    requires s.tasks == [Launching(Count(Warmer(n), lease))]
    ensures RunStep(c, s, 0, Quiet)
         == Some(s.(active := s.active + 1, tasks := [Launching(Launch(Warmer(n), lease))]))
  {
    assert s.tasks[0 := Launching(Launch(Warmer(n), lease))] + [] == [Launching(Launch(Warmer(n), lease))];
  }

  lemma LaunchedStep(c: Config, s: State, n: nat, lease: Option<nat>, id: nat)
    requires s.tasks == [Launching(Launch(Warmer(n), lease))] && id !in s.born
    ensures RunStep(c, s, 0, Launched(id))
         == Some(s.(born := s.born[id := Origin(None, lease)],
                    tasks := [Warm(WarmPush(n, Cargo(Instance(id, true), lease)))]))
  {
    var t := Warm(WarmPush(n, Cargo(Instance(id, true), lease)));
    assert s.tasks[0 := t] + [] == [t];
  }

  lemma PushStep(c: Config, s: State, n: nat, cargo: Cargo)
    requires s.tasks == [Warm(WarmPush(n, cargo))]
    ensures RunStep(c, s, 0, Quiet)
         == Some(s.(shared := s.shared + [Entry(cargo, s.now)], tasks := [Warm(WarmNext(n + 1))]))
  {
    assert s.tasks[0 := Warm(WarmNext(n + 1))] + [] == [Warm(WarmNext(n + 1))];
  }

  lemma LaunchErrorStep(c: Config, s: State, n: nat, lease: Option<nat>)
    requires s.tasks == [Launching(Launch(Warmer(n), lease))]
    ensures RunStep(c, s, 0, LaunchError)
         == Some(s.(leases := Depart(s.leases, lease, LaunchFailed), tasks := [Launching(Uncount(Warmer(n), lease))]))
  {
    assert s.tasks[0 := Launching(Uncount(Warmer(n), lease))] + [] == [Launching(Uncount(Warmer(n), lease))];
  }

  lemma UncountStep(c: Config, s: State, n: nat, lease: Option<nat>)
    requires s.tasks == [Launching(Uncount(Warmer(n), lease))]
    ensures RunStep(c, s, 0, Quiet)
         == Some(s.(active := FetchSub(s.active), tasks := [Launching(Unpermit(Warmer(n), lease))]))
  {
    assert s.tasks[0 := Launching(Unpermit(Warmer(n), lease))] + [] == [Launching(Unpermit(Warmer(n), lease))];
  }

  lemma UnpermitStep(c: Config, s: State, n: nat, lease: Option<nat>)
    requires s.tasks == [Launching(Unpermit(Warmer(n), lease))]
    ensures RunStep(c, s, 0, Quiet)
         == Some(s.(permits := s.permits + 1, leases := Drop(s.leases, lease), tasks := [Warm(WarmNext(n + 1))]))
  {
    assert s.tasks[0 := Warm(WarmNext(n + 1))] + [] == [Warm(WarmNext(n + 1))];
  }

  lemma BindStep(c: Config, s: State, n: nat, bound: Option<nat>)
    requires s.tasks == [Warm(WarmNext(n))] && n < c.min && (bound.Some? ==> bound.value !in s.leases)
    ensures var leases := if bound.Some? then s.leases[bound.value := LeaseLog(0, 0, None)] else s.leases;
            c.proxied && bound.Some? ==>
              RunStep(c, s, 0, Bound(bound.value)) == Some(s.(leases := leases, tasks := [Warm(WarmPermit(n, bound))]))
    ensures c.proxied ==> RunStep(c, s, 0, BindFailed) == Some(s.(tasks := [Warm(WarmNext(n + 1))]))
    ensures !c.proxied ==> RunStep(c, s, 0, Quiet) == Some(s.(tasks := [Warm(WarmPermit(n, None))]))
  {
    assert forall t: Task :: s.tasks[0 := t] + [] == [t];
  }

  lemma PermitStep(c: Config, s: State, n: nat, lease: Option<nat>)
    requires s.tasks == [Warm(WarmPermit(n, lease))]
    ensures RunStep(c, s, 0, Quiet)
         == Some(if s.permits > 0 then s.(permits := s.permits - 1, tasks := [Launching(Count(Warmer(n), lease))])
                 else s.(leases := Drop(Depart(s.leases, lease, Unused), lease), tasks := [Done]))
  {
    assert forall t: Task :: s.tasks[0 := t] + [] == [t];
  }

  lemma WarmEndStep(c: Config, s: State, n: nat)
    requires s.tasks == [Warm(WarmNext(n))] && n >= c.min
    ensures RunStep(c, s, 0, Quiet) == Some(s.(tasks := [Done]))
  {
    assert s.tasks[0 := Done] + [] == [Done];
  }
}
