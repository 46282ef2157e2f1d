/**
 The eviction sweep: what it takes from each queue, what it leaves, and that it keeps the pool
 invariant.
 */
module PoolSweep {
  import opened Options
  import opened PoolModel
  import opened PoolMeasure
  import opened PoolInvariant
  import opened PoolSteps

  // ---------------------------------------------------------------- nothing is lost or made up

  lemma NoEntries(w: Weight)
    ensures EntriesW(w, []) == 0
  {
  }

  lemma {:induction false} SweepQueueW(w: Weight, q: seq<Entry>, budget: nat, now: nat, idleTimeout: nat)
    ensures var r := SweepQueue(q, budget, now, idleTimeout);
            EntriesW(w, r.kept) + EntriesW(w, r.evicted) == EntriesW(w, q)
  {
    hide EntriesW;
    if q == [] {
      NoEntries(w);
    } else {
      var p, e := q[..|q| - 1], q[|q| - 1];
      var r := SweepQueue(p, budget, now, idleTimeout);
      SweepQueueW(w, p, budget, now, idleTimeout);
      assert q == p + [e];
      EntriesSnoc(w, p, e);
      EntriesSnoc(w, r.kept, e);
      EntriesSnoc(w, r.evicted, e);
    }
  }

  lemma {:induction false} SweepScopedW(w: Weight, m: map<Context, seq<Entry>>, order: seq<Context>,
                                        budget: nat, now: nat, idleTimeout: nat)
    ensures var r := SweepScoped(m, order, budget, now, idleTimeout);
            ScopedW(w, r.scoped) + EntriesW(w, r.evicted) == ScopedW(w, m)
  {
    hide EntriesW, ScopedW;
    if order == [] {
      NoEntries(w);
    } else {
      var r := SweepScoped(m, order[..|order| - 1], budget, now, idleTimeout);
      var id := order[|order| - 1];
      SweepScopedW(w, m, order[..|order| - 1], budget, now, idleTimeout);
      if id in r.scoped {
        var one := SweepQueue(r.scoped[id], budget - |r.evicted|, now, idleTimeout);
        SweepQueueW(w, r.scoped[id], budget - |r.evicted|, now, idleTimeout);
        ScopedSplit(w, r.scoped, id);
        ScopedSet(w, r.scoped, id, one.kept);
        EntriesAppend(w, r.evicted, one.evicted);
      }
    }
  }

  lemma WithoutEmptyMinus(m: map<Context, seq<Entry>>, k: Context)
    requires k in m
    ensures m[k] == [] ==> WithoutEmpty(m) == WithoutEmpty(m - {k})
    ensures m[k] != [] ==> k in WithoutEmpty(m) && WithoutEmpty(m)[k] == m[k]
    ensures m[k] != [] ==> WithoutEmpty(m) - {k} == WithoutEmpty(m - {k})
  {
  }

  lemma {:induction false} WithoutEmptyW(w: Weight, m: map<Context, seq<Entry>>)
    ensures ScopedW(w, WithoutEmpty(m)) == ScopedW(w, m)
    decreases |m.Keys|
  {
    hide EntriesW, ScopedW, WithoutEmpty;
    if m.Keys == {} {
      NoneEmpty(m);
    } else {
      var k :| k in m.Keys;
      assert (m - {k}).Keys == m.Keys - {k};
      WithoutEmptyW(w, m - {k});
      WithoutEmptyMinus(m, k);
      ScopedSplit(w, m, k);
      if m[k] == [] {
        NoEntries(w);
      } else {
        ScopedSplit(w, WithoutEmpty(m), k);
      }
    }
  }

  lemma NoneEmpty(m: map<Context, seq<Entry>>)
    requires m.Keys == {}
    ensures WithoutEmpty(m) == m
  {
  }

  /** The entries that go change hands: from the queues to the sweep. */
  lemma SweepTotal(w: Weight, c: Config, s: State, order: seq<Context>)
    ensures Total(w, SweepStep(c, s, order)) == Total(w, s)
  {
    hide EntriesW, ScopedW, TasksW, SweepQueue, SweepScoped, WithoutEmpty, ScopedIdle;
    var budget := Budget(c, s);
    var sh := SweepQueue(s.shared, budget, s.now, c.idleTimeout);
    var sc := SweepScoped(s.scoped, order, budget - |sh.evicted|, s.now, c.idleTimeout);
    SweepQueueW(w, s.shared, budget, s.now, c.idleTimeout);
    SweepScopedW(w, s.scoped, order, budget - |sh.evicted|, s.now, c.idleTimeout);
    WithoutEmptyW(w, sc.scoped);
    EntriesAppend(w, sh.evicted, sc.evicted);
    var t := Sweeping(Evict(SweptOut(c, s, order)));
    TasksAppend(w, s.tasks, [t]);
    TasksOne(w, t);
  }

  // ---------------------------------------------------------------- which entries go

  function ExpiredCount(q: seq<Entry>, now: nat, idleTimeout: nat): nat {
    if q == [] then 0
    else ExpiredCount(q[..|q| - 1], now, idleTimeout) + OneIf(Expired(q[|q| - 1], now, idleTimeout))
  }

  /** `evicted` is the oldest part of `q`, `kept` the rest; all that went had expired. */
  ghost predicate TakesOldest(q: seq<Entry>, evicted: seq<Entry>, kept: seq<Entry>, now: nat, idleTimeout: nat) {
    && q == evicted + kept
    && forall j :: 0 <= j < |evicted| ==> Expired(evicted[j], now, idleTimeout)
  }

  predicate InOrder(q: seq<Entry>) {
    forall j, k :: 0 <= j < k < |q| ==> q[j].lastUsed <= q[k].lastUsed
  }

  lemma PrefixInOrder(q: seq<Entry>)
    requires InOrder(q) && q != []
    ensures InOrder(q[..|q| - 1])
  {
  }

  lemma GivesUpLast(p: seq<Entry>, evicted: seq<Entry>, e: Entry, now: nat, idleTimeout: nat)
    requires TakesOldest(p, evicted, [], now, idleTimeout) && Expired(e, now, idleTimeout)
    ensures TakesOldest(p + [e], evicted + [e], [], now, idleTimeout)
  {
  }

  lemma KeepsLast(p: seq<Entry>, evicted: seq<Entry>, kept: seq<Entry>, e: Entry, now: nat, idleTimeout: nat)
    requires TakesOldest(p, evicted, kept, now, idleTimeout)
    ensures TakesOldest(p + [e], evicted, kept + [e], now, idleTimeout)
  {
    assert evicted + (kept + [e]) == p + [e];
  }

  /** In a queue in order of age, what comes after an unexpired entry has not expired. */
  lemma YoungerIsFresh(p: seq<Entry>, evicted: seq<Entry>, kept: seq<Entry>, e: Entry, now: nat, idleTimeout: nat)
    requires InOrder(p + [e]) && TakesOldest(p, evicted, kept, now, idleTimeout)
    requires kept != [] && !Expired(kept[0], now, idleTimeout)
    ensures !Expired(e, now, idleTimeout)
  {
    assert kept[0] == (p + [e])[|evicted|];
    assert e == (p + [e])[|p|];
  }

  /** A queue in order of age gives up its oldest entries, as many as have expired and the budget allows. */
  lemma {:induction false} SweepTakesOldest(q: seq<Entry>, budget: nat, now: nat, idleTimeout: nat)
    requires InOrder(q)
    ensures var r := SweepQueue(q, budget, now, idleTimeout);
            && TakesOldest(q, r.evicted, r.kept, now, idleTimeout)
            && |r.evicted| == Min(budget, ExpiredCount(q, now, idleTimeout))
            && (|r.kept| > 0 && |r.evicted| < budget ==> !Expired(r.kept[0], now, idleTimeout))
  {
    hide TakesOldest, Expired, InOrder;
    if q == [] {
      TakesNothing(q, now, idleTimeout);
    } else {
      var p, e := q[..|q| - 1], q[|q| - 1];
      var r := SweepQueue(p, budget, now, idleTimeout);
      PrefixInOrder(q);
      SweepTakesOldest(p, budget, now, idleTimeout);
      assert q == p + [e];
      var taken := |r.evicted| < budget && Expired(e, now, idleTimeout);
      assert SweepQueue(q, budget, now, idleTimeout)
          == if taken then Swept(r.kept, r.evicted + [e]) else Swept(r.kept + [e], r.evicted);
      assert ExpiredCount(q, now, idleTimeout)
          == ExpiredCount(p, now, idleTimeout) + OneIf(Expired(e, now, idleTimeout));
      hide SweepQueue, ExpiredCount;
      if taken {
        if r.kept != [] {
          YoungerIsFresh(p, r.evicted, r.kept, e, now, idleTimeout);
        }
        GivesUpLast(p, r.evicted, e, now, idleTimeout);
      } else {
        KeepsLast(p, r.evicted, r.kept, e, now, idleTimeout);
      }
    }
  }

  lemma TakesNothing(q: seq<Entry>, now: nat, idleTimeout: nat)
    ensures TakesOldest(q, [], q, now, idleTimeout)
  {
  }

  lemma QueueSwept(born: map<nat, Origin>, ctx: Option<Context>, q: seq<Entry>, budget: nat, now: nat, idleTimeout: nat)
    requires QueueOk(born, ctx, q, now)
    ensures QueueOk(born, ctx, SweepQueue(q, budget, now, idleTimeout).kept, now)
  {
    SweepTakesOldest(q, budget, now, idleTimeout);
    var r := SweepQueue(q, budget, now, idleTimeout);
    assert forall j :: 0 <= j < |r.kept| ==> r.kept[j] == q[|r.evicted| + j];
  }

  /** Every context keeps the younger part of its queue. */
  lemma {:induction false} ScopedSwept(born: map<nat, Origin>, m: map<Context, seq<Entry>>, order: seq<Context>,
                                       budget: nat, now: nat, idleTimeout: nat)
    requires forall id :: id in m ==> QueueOk(born, Some(id), m[id], now)
    ensures var r := SweepScoped(m, order, budget, now, idleTimeout);
            forall id :: id in m ==> QueueOk(born, Some(id), r.scoped[id], now)
  {
    hide QueueOk, SweepQueue;
    if order != [] {
      ScopedSwept(born, m, order[..|order| - 1], budget, now, idleTimeout);
      var r := SweepScoped(m, order[..|order| - 1], budget, now, idleTimeout);
      var id := order[|order| - 1];
      if id in r.scoped {
        QueueSwept(born, Some(id), r.scoped[id], budget - |r.evicted|, now, idleTimeout);
      }
    }
  }

  /** The expired entries in the scoped queues, in the order in which the sweep visits them. */
  function ExpiredAlong(m: map<Context, seq<Entry>>, order: seq<Context>, now: nat, idleTimeout: nat): nat {
    if order == [] then 0
    else
      var id := order[|order| - 1];
      ExpiredAlong(m, order[..|order| - 1], now, idleTimeout)
      + (if id in m then ExpiredCount(m[id], now, idleTimeout) else 0)
  }

  /** Queues the sweep does not come to stay as they are. */
  lemma {:induction false} ScopedUntouched(m: map<Context, seq<Entry>>, order: seq<Context>, id: Context,
                                           budget: nat, now: nat, idleTimeout: nat)
    requires id in m && id !in order
    ensures SweepScoped(m, order, budget, now, idleTimeout).scoped[id] == m[id]
  {
    if order != [] {
      ScopedUntouched(m, order[..|order| - 1], id, budget, now, idleTimeout);
    }
  }

  ghost predicate AllInOrder(m: map<Context, seq<Entry>>) {
    forall id :: id in m ==> InOrder(m[id])
  }

  predicate Distinct(order: seq<Context>) {
    forall j, k :: 0 <= j < k < |order| ==> order[j] != order[k]
  }

  lemma {:induction false} ScopedCount(m: map<Context, seq<Entry>>, order: seq<Context>,
                                       budget: nat, now: nat, idleTimeout: nat)
    requires AllInOrder(m) && Distinct(order)
    ensures |SweepScoped(m, order, budget, now, idleTimeout).evicted|
         == Min(budget, ExpiredAlong(m, order, now, idleTimeout))
  {
    hide SweepQueue, ExpiredCount, InOrder, TakesOldest;
    if order != [] {
      var before, id := order[..|order| - 1], order[|order| - 1];
      ScopedCount(m, before, budget, now, idleTimeout);
      if id in m {
        ScopedUntouched(m, before, id, budget, now, idleTimeout);
        SweepTakesOldest(m[id], budget - |SweepScoped(m, before, budget, now, idleTimeout).evicted|, now, idleTimeout);
      }
    }
  }

  /** Every scoped queue loses its oldest entries and no other. */
  lemma {:induction false} ScopedTakesOldest(m: map<Context, seq<Entry>>, order: seq<Context>, id: Context,
                                             budget: nat, now: nat, idleTimeout: nat)
    returns (gone: seq<Entry>)
    requires AllInOrder(m) && Distinct(order) && id in m
    ensures TakesOldest(m[id], gone, SweepScoped(m, order, budget, now, idleTimeout).scoped[id], now, idleTimeout)
  {
    hide SweepQueue, ExpiredCount, InOrder;
    if order == [] {
      gone := [];
    } else {
      hide TakesOldest;
      var before, last := order[..|order| - 1], order[|order| - 1];
      if last == id {
        ScopedUntouched(m, before, id, budget, now, idleTimeout);
        var left := budget - |SweepScoped(m, before, budget, now, idleTimeout).evicted|;
        SweepTakesOldest(m[id], left, now, idleTimeout);
        gone := SweepQueue(m[id], left, now, idleTimeout).evicted;
      } else {
        gone := ScopedTakesOldest(m, before, id, budget, now, idleTimeout);
      }
    }
  }

  // ---------------------------------------------------------------- the sweep keeps the invariant

  lemma SweepTasks(c: Config, s: State, order: seq<Context>)
    requires TasksOk(s)
    ensures TasksOk(SweepStep(c, s, order))
  {
    hide SweepQueue, SweepScoped, ScopedIdle;
    var s' := SweepStep(c, s, order);
    forall k | 0 <= k < |s'.tasks| ensures TaskOk(s'.born, s'.tasks[k]) {
      if k < |s.tasks| {
        assert TaskOk(s.born, s.tasks[k]);
      }
    }
  }

  lemma SweepQueues(c: Config, s: State, order: seq<Context>)
    requires QueuesOk(s)
    ensures QueuesOk(SweepStep(c, s, order))
  {
    hide SweepQueue, SweepScoped, ScopedIdle, QueueOk;
    var budget := Budget(c, s);
    var sh := SweepQueue(s.shared, budget, s.now, c.idleTimeout);
    QueueSwept(s.born, None, s.shared, budget, s.now, c.idleTimeout);
    ScopedSwept(s.born, s.scoped, order, budget - |sh.evicted|, s.now, c.idleTimeout);
  }

  /** The start of a sweep keeps the invariant. */
  lemma SweepKeeps(c: Config, s: State, order: seq<Context>)
    requires Inv(c, s)
    ensures Inv(c, SweepStep(c, s, order))
  {
    hide SweepQueue, SweepScoped, WithoutEmpty, ScopedIdle, Total;
    SweepTasks(c, s, order);
    SweepQueues(c, s, order);
    forall id: nat, l: nat ensures LawsAt(c, SweepStep(c, s, order), id, l) {
      assert LawsAt(c, s, id, l);
      SweepTotal(Slot, c, s, order);
      SweepTotal(Counted, c, s, order);
      SweepTotal(OfInst(id), c, s, order);
      SweepTotal(Serving(l), c, s, order);
      SweepTotal(Leaving(l), c, s, order);
    }
  }

  ghost function AllExpired(c: Config, s: State, order: seq<Context>): nat {
    ExpiredCount(s.shared, s.now, c.idleTimeout) + ExpiredAlong(s.scoped, order, s.now, c.idleTimeout)
  }

  lemma QueuesInOrder(s: State)
    requires QueuesOk(s)
    ensures AllInOrder(s.scoped)
  {
  }

  /** A sweep decides on as many browsers as have expired, within what the counter exceeds `min_size` by. */
  lemma SweepCount(c: Config, s: State, order: seq<Context>)
    requires QueuesOk(s) && IsOrderOf(order, s.scoped)
    ensures |SweptOut(c, s, order)| == Min(if s.active > c.min then s.active - c.min else 0, AllExpired(c, s, order))
  {
    hide SweepQueue, SweepScoped, ScopedIdle, ExpiredCount, ExpiredAlong, AllInOrder;
    QueuesInOrder(s);
    var budget := Budget(c, s);
    var sh := SweepQueue(s.shared, budget, s.now, c.idleTimeout);
    SweepTakesOldest(s.shared, budget, s.now, c.idleTimeout);
    ScopedCount(s.scoped, order, budget - |sh.evicted|, s.now, c.idleTimeout);
    ExpiredIdle(s.shared, s.now, c.idleTimeout);
    ExpiredIdleAlong(s.scoped, order, s.now, c.idleTimeout);
  }

  /** Each queue loses its oldest entries, all of them expired, and no scoped queue is left empty. */
  lemma SweepOldest(c: Config, s: State, order: seq<Context>, ctx: Option<Context>) returns (gone: seq<Entry>)
    requires QueuesOk(s) && IsOrderOf(order, s.scoped)
    ensures TakesOldest(GetQueue(s, ctx), gone, GetQueue(SweepStep(c, s, order), ctx), s.now, c.idleTimeout)
    ensures forall id :: id in SweepStep(c, s, order).scoped ==> GetQueue(SweepStep(c, s, order), Some(id)) != []
  {
    hide SweepQueue, SweepScoped, ScopedIdle, ExpiredCount, ExpiredAlong, AllInOrder;
    QueuesInOrder(s);
    var budget := Budget(c, s);
    var sh := SweepQueue(s.shared, budget, s.now, c.idleTimeout);
    if ctx.None? {
      SweepTakesOldest(s.shared, budget, s.now, c.idleTimeout);
      gone := sh.evicted;
    } else if ctx.value in s.scoped {
      gone := ScopedTakesOldest(s.scoped, order, ctx.value, budget - |sh.evicted|, s.now, c.idleTimeout);
    } else {
      gone := [];
    }
  }

  lemma {:induction false} ExpiredIdle(q: seq<Entry>, now: nat, idleTimeout: nat)
    ensures ExpiredCount(q, now, idleTimeout) <= |q|
  {
    if q != [] { ExpiredIdle(q[..|q| - 1], now, idleTimeout); }
  }

  lemma {:induction false} ExpiredIdleAlong(m: map<Context, seq<Entry>>, order: seq<Context>, now: nat,
                                            idleTimeout: nat)
    requires forall j, k :: 0 <= j < k < |order| ==> order[j] != order[k]
    ensures ExpiredAlong(m, order, now, idleTimeout) <= ScopedIdle(m)
  {
    if order != [] {
      var id := order[|order| - 1];
      var before := order[..|order| - 1];
      if id in m {
        ExpiredElsewhere(m, before, id, now, idleTimeout);
        ExpiredIdleAlong(m - {id}, before, now, idleTimeout);
        ExpiredIdle(m[id], now, idleTimeout);
        ScopedSlots(m);
        ScopedSlots(m - {id});
        ScopedSplit(Slot, m, id);
        EntriesSlots(m[id]);
      } else {
        ExpiredIdleAlong(m, before, now, idleTimeout);
      }
    }
  }

  lemma {:induction false} ExpiredElsewhere(m: map<Context, seq<Entry>>, order: seq<Context>, id: Context, now: nat,
                                            idleTimeout: nat)
    requires id !in order
    ensures ExpiredAlong(m - {id}, order, now, idleTimeout) == ExpiredAlong(m, order, now, idleTimeout)
  {
    if order != [] { ExpiredElsewhere(m, order[..|order| - 1], id, now, idleTimeout); }
  }
}
