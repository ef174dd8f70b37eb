/** Expiry of pending leases at the end of a block: which leases expire, and that every overdue
    lease does so after boundedly many blocks. */
module Expiry {
  import opened Types
  import opened Text
  import opened Ledger
  import opened Invariants
  import opened Reachable
  import opened Lifetime
  import UuidV7

  // ---------------------------------------------------------------- what one block expires

  /** The leases with those of `us` expired. */
  function Expiring(leases: map<Uuid, Lease>, us: seq<Uuid>, now: Time): map<Uuid, Lease> {
    map u | u in leases :: if u in us then ExpiredLease(leases[u], now) else leases[u]
  }

  predicate AllPending(leases: map<Uuid, Lease>, us: seq<Uuid>) {
    forall u :: u in us ==> u in leases && leases[u].state == Pending
  }

  lemma ExpiringSnoc(leases: map<Uuid, Lease>, us: seq<Uuid>, u: Uuid, now: Time)
    requires u in leases && u !in us
    ensures Expiring(leases, us + [u], now) == Expiring(leases, us, now)[u := ExpiredLease(leases[u], now)]
  {
    assert forall v :: v in us + [u] <==> v in us || v == u;
  }

  lemma OneExpires(env: Env, st: Store, u: Uuid)
    requires Indexed(st) && u in st.leases && st.leases[u].state == Pending
    ensures One(OpExpire, env, st, u).Ok?
    ensures One(OpExpire, env, st, u).value.st.leases == st.leases[u := ExpiredLease(st.leases[u], env.now)]
    ensures One(OpExpire, env, st, u).value.receipts == []
  {
    hide Indexed, Kept, ExpireOne, AcknowledgeOne, RejectOne;
    FiledUnderKey(st, u);
    PendingStepIsKept(st, env.now, st.leases[u], "");
    ExpiryPaysNothing(st, env.now, st.leases[u]);
  }

  lemma ExpiryPaysNothing(st: Store, now: Time, l: Lease)
    ensures ExpireOne(st, now, l).Ok? ==> ExpireOne(st, now, l).value.receipts == []
  {
    hide Move;
  }

  /** Expiring a list of distinct pending leases never fails and touches nothing else. */
  lemma {:induction false} BatchExpires(env: Env, st: Store, us: seq<Uuid>)
    requires Indexed(st) && Distinct(us) && AllPending(st.leases, us)
    ensures Batch(OpExpire, env, st, us).Ok?
    ensures Batch(OpExpire, env, st, us).value.st.leases == Expiring(st.leases, us, env.now)
    ensures Batch(OpExpire, env, st, us).value.receipts == []
    decreases |us|
  {
    hide Indexed, One, OnlyEvolved, ReservedExactly;
    if us == [] {
      assert Expiring(st.leases, us, env.now) == st.leases;
    } else {
      var n := |us| - 1;
      assert forall u :: u in us[..n] ==> u in us;
      BatchExpires(env, st, us[..n]);
      BatchIsKept(OpExpire, env, st, us[..n]);
      var before := Batch(OpExpire, env, st, us[..n]).value.st;
      assert us[n] in us && us[n] !in us[..n];
      OneExpires(env, before, us[n]);
      ExpiringSnoc(st.leases, us[..n], us[n], env.now);
      assert us[..n] + [us[n]] == us;
    }
  }

  function DueNow(st: Store, now: Time): seq<Uuid> {
    Take(Sorted(OverdueLeases(st, now)), MAX_PENDING_LEASE_EXPIRATIONS_PER_BLOCK)
  }

  lemma DueNowIsGood(st: Store, now: Time)
    ensures Distinct(DueNow(st, now)) && AllPending(st.leases, DueNow(st, now))
    ensures forall u :: u in DueNow(st, now) ==> u in OverdueLeases(st, now)
  {
    var q := Sorted(OverdueLeases(st, now));
    IncreasingIsDistinct(q);
    assert forall u :: u in DueNow(st, now) ==> u in q;
  }

  /** Pending for longer than the timeout, in nanoseconds. */
  predicate TimedOut(params: Params, l: Lease, now: Time) {
    l.state == Pending && now - l.createdAt > params.pendingTimeout * 1_000_000_000
  }

  /** A block expires exactly the first hundred overdue pending leases in identifier order (all
      of them if there are fewer), moves no money, and leaves every other lease as it was. */
  lemma EndBlockExpires(env: Env, st: Store)
    requires Indexed(st)
    ensures EndBlock(env, st).Ok?
    ensures EndBlock(env, st).value.st.leases == Expiring(st.leases, DueNow(st, env.now), env.now)
    ensures EndBlock(env, st).value.receipts == []
    ensures forall u :: u in OverdueLeases(st, env.now) <==> u in st.leases && TimedOut(st.params, st.leases[u], env.now)
    ensures |DueNow(st, env.now)| == if |OverdueLeases(st, env.now)| < 100 then |OverdueLeases(st, env.now)| else 100
    ensures forall u, v :: u in DueNow(st, env.now) && v in OverdueLeases(st, env.now) && v !in DueNow(st, env.now) ==> Less(u, v)
  {
    hide Indexed, Batch, Expiring;
    DueNowIsGood(st, env.now);
    BatchExpires(env, st, DueNow(st, env.now));
    var q := Sorted(OverdueLeases(st, env.now));
    forall u, v | u in DueNow(st, env.now) && v in OverdueLeases(st, env.now) && v !in DueNow(st, env.now) ensures Less(u, v) {
      TakenComesFirst(q, 100, u, v);
    }
  }

  // ---------------------------------------------------------------- the age of an expired lease

  /** The leases that timed out and come before `u`. */
  function TimedOutBefore(st: Store, now: Time, u: Uuid): set<Uuid> {
    set v | v in st.leases && TimedOut(st.params, st.leases[v], now) && Less(v, u)
  }

  lemma OverdueIsTimedOut(st: Store, now: Time, u: Uuid)
    ensures u in OverdueLeases(st, now) <==> u in st.leases && TimedOut(st.params, st.leases[u], now)
    ensures Below(OverdueLeases(st, now), u) == TimedOutBefore(st, now, u)
  {
    hide Less;
  }

  /** Which leases a block expires, in nanoseconds and numbers: those pending for more than the
      timeout with fewer than a hundred such leases before them.  The others stay as they are. */
  lemma BlockExpiresIff(env: Env, st: Store, u: Uuid)
    requires Indexed(st) && u in st.leases
    ensures EndBlock(env, st).Ok?
    ensures var st' := EndBlock(env, st).value.st;
            && u in st'.leases
            && st'.leases[u] == if TimedOut(st.params, st.leases[u], env.now) && |TimedOutBefore(st, env.now, u)| < 100
                                then st.leases[u].(state := Expired, expiredAt := Some(env.now)) else st.leases[u]
  {
    hide Indexed, EndBlock, OverdueLeases, TimedOut, TimedOutBefore, Sorted, Take, Below, Less;
    EndBlockExpires(env, st);
    OverdueIsTimedOut(st, env.now, u);
    TakenIffRanked(OverdueLeases(st, env.now), 100, u);
  }

  lemma TakenComesFirst(q: seq<string>, n: nat, u: string, v: string)
    requires Increasing(q) && u in Take(q, n) && v in q && v !in Take(q, n)
    ensures Less(u, v)
  {
    var i :| 0 <= i < |Take(q, n)| && Take(q, n)[i] == u;
    var j :| 0 <= j < |q| && q[j] == v;
    assert forall k :: 0 <= k < |Take(q, n)| ==> Take(q, n)[k] == q[k];
    assert q[i] == u;
  }

  // ---------------------------------------------------------------- identifier order is creation order

  /** Every identifier carries the millisecond of its lease's creation. */
  ghost predicate Stamped(leases: map<Uuid, Lease>) {
    forall u :: u in leases ==> exists k: nat, node: nat :: IsStamp(u, leases[u].createdAt, k, node)
  }

  predicate IsStamp(u: Uuid, t: Time, k: nat, node: nat) {
    0 <= UuidV7.UnixMilli(t) < UuidV7.MILLIS_LIMIT && u == UuidV7.Format(UuidV7.Layout(UuidV7.UnixMilli(t), k, node))
  }

  /** Leases created earlier have smaller identifiers. */
  predicate TimeOrdered(leases: map<Uuid, Lease>) {
    forall u, v :: u in leases && v in leases && leases[u].createdAt < leases[v].createdAt ==> Less(u, v)
  }

  /** Block times that differ, differ in milliseconds. */
  predicate Coarse(leases: map<Uuid, Lease>, now: Time) {
    && 0 <= UuidV7.UnixMilli(now) < UuidV7.MILLIS_LIMIT
    && forall u :: u in leases ==> leases[u].createdAt == now || UuidV7.UnixMilli(leases[u].createdAt) < UuidV7.UnixMilli(now)
  }

  lemma CreationKeepsOrder(env: Env, st: Store, l: Lease)
    requires Stamped(st.leases) && TimeOrdered(st.leases) && Coarse(st.leases, env.now) && Timely(st.leases, env.now)
    requires l.uuid == NextUuid(env, st) && l.createdAt == env.now && l.uuid !in st.leases
    ensures Stamped(st.leases[l.uuid := l]) && TimeOrdered(st.leases[l.uuid := l])
  {
    hide UuidV7.Format, UuidV7.Layout, UuidV7.Node, Less, UuidV7.UnixMilli;
    var leases' := st.leases[l.uuid := l];
    var node := UuidV7.Node(env.entropy, st.sequence);
    assert IsStamp(l.uuid, env.now, st.sequence, node);
    assert forall v :: v in st.leases ==> TimelyLease(st.leases[v], env.now);
    forall u | u in leases' ensures exists k: nat, node: nat :: IsStamp(u, leases'[u].createdAt, k, node) {
      if u != l.uuid { assert u in st.leases; }
    }
    forall u, v | u in leases' && v in leases' && leases'[u].createdAt < leases'[v].createdAt ensures Less(u, v) {
      if v == l.uuid {
        var k: nat, n: nat :| IsStamp(u, st.leases[u].createdAt, k, n);
        UuidV7.GeneratedIsOrdered(UuidV7.UnixMilli(st.leases[u].createdAt), k, n, UuidV7.UnixMilli(env.now), st.sequence, node);
      }
    }
  }

  lemma PersistingKeepsOrder(leases: map<Uuid, Lease>, leases': map<Uuid, Lease>)
    requires Stamped(leases) && TimeOrdered(leases) && AllPersist(leases, leases') && leases'.Keys == leases.Keys
    ensures Stamped(leases') && TimeOrdered(leases')
  {
    hide IsStamp, Less, SameGoods;
    forall u | u in leases' ensures exists k: nat, node: nat :: IsStamp(u, leases'[u].createdAt, k, node) {
      assert u in leases && Persists(leases[u], leases'[u]);
    }
    forall u, v | u in leases' && v in leases' && leases'[u].createdAt < leases'[v].createdAt ensures Less(u, v) {
      assert u in leases && v in leases && Persists(leases[u], leases'[u]) && Persists(leases[v], leases'[v]);
    }
  }

  // ---------------------------------------------------------------- progress

  /** The overdue leases that come before `u`. */
  function Ahead(st: Store, now: Time, u: Uuid): set<Uuid> {
    set v | v in OverdueLeases(st, now) && Less(v, u)
  }

  lemma SubsetIsSmaller<T>(a: set<T>, b: set<T>)
    requires a <= b
    ensures |a| <= |b|
  {
    assert b == a + (b - a);
  }

  /** While `u` is overdue, nothing new gets ahead of it: later time, other events and new leases
      only shrink the queue. */
  lemma NobodyJumpsTheQueue(st: Store, now: Time, st': Store, now': Time, u: Uuid)
    requires u in OverdueLeases(st, now) && TimeOrdered(st.leases) && now <= now' && st'.params == st.params
    requires AllPersist(st.leases, st'.leases)
    requires forall v :: v in st'.leases && v !in st.leases ==> st'.leases[v].createdAt == now'
    ensures Ahead(st', now', u) <= Ahead(st, now, u)
  {
    hide Less, SameGoods;
    assert forall v :: v in st'.leases && v !in st.leases ==> !Overdue(st'.params, st'.leases[v], now');
    forall v | v in Ahead(st', now', u) ensures v in Ahead(st, now, u) {
      assert Persists(st.leases[v], st'.leases[v]);
      LessIsStrict(u, v);
      assert !(st.leases[u].createdAt < st.leases[v].createdAt);
    }
  }

  /** A block either expires `u` or removes a hundred leases from in front of it. */
  lemma BlockMakesProgress(env: Env, st: Store, u: Uuid)
    requires Indexed(st) && u in OverdueLeases(st, env.now)
    ensures EndBlock(env, st).Ok?
    ensures var st' := EndBlock(env, st).value.st;
            u in st'.leases &&
            (st'.leases[u].state == Pending ==> |Ahead(st', env.now, u)| + 100 <= |Ahead(st, env.now, u)|)
  {
    hide Indexed, EndBlock, OverdueLeases, Less, Expiring, DueNow;
    EndBlockExpires(env, st);
    EndBlockKeepsParams(env, st);
    QueueShrinks(st, EndBlock(env, st).value.st, env.now, u);
  }

  lemma EndBlockKeepsParams(env: Env, st: Store)
    requires Indexed(st) && EndBlock(env, st).Ok?
    ensures EndBlock(env, st).value.st.params == st.params
  {
    hide Indexed, Batch, ReservedExactly, OnlyEvolved;
    BatchIsKept(OpExpire, env, st, DueNow(st, env.now));
  }

  lemma QueueShrinks(st: Store, st': Store, now: Time, u: Uuid)
    requires u in OverdueLeases(st, now)
    requires st'.leases == Expiring(st.leases, DueNow(st, now), now) && st'.params == st.params
    ensures u in st'.leases && (st'.leases[u].state == Pending ==> |Ahead(st', now, u)| + 100 <= |Ahead(st, now, u)|)
  {
    if u !in DueNow(st, now) {
      DueAreAhead(st, now, u);
      DueIsFull(st, now, u);
      hide Less, DueNow;
      var gone := set v | v in DueNow(st, now);
      assert gone <= Ahead(st, now, u);
      assert Ahead(st', now, u) <= Ahead(st, now, u) - gone;
      SubsetIsSmaller(Ahead(st', now, u), Ahead(st, now, u) - gone);
    }
  }

  lemma DueAreAhead(st: Store, now: Time, u: Uuid)
    requires u in OverdueLeases(st, now) && u !in DueNow(st, now)
    ensures forall v :: v in DueNow(st, now) ==> v in Ahead(st, now, u)
  {
    hide Less;
    DueNowIsGood(st, now);
    forall v | v in DueNow(st, now) ensures Less(v, u) {
      TakenComesFirst(Sorted(OverdueLeases(st, now)), 100, v, u);
    }
  }

  lemma DueIsFull(st: Store, now: Time, u: Uuid)
    requires u in OverdueLeases(st, now) && u !in DueNow(st, now)
    ensures |set v | v in DueNow(st, now)| == 100
  {
    hide Less;
    var q := Sorted(OverdueLeases(st, now));
    assert u in q;
    DueNowIsGood(st, now);
    SetOfDistinct(DueNow(st, now));
  }

  // ---------------------------------------------------------------- runs

  function Blocks(steps: seq<Step>): nat {
    if steps == [] then 0 else Blocks(steps[..|steps| - 1]) + if steps[|steps| - 1].event.BlockEnd? then 1 else 0
  }

  /** Distinct block times of the run differ in milliseconds from the creation times before them. */
  ghost predicate CoarseRun(st: Store, steps: seq<Step>) {
    steps == [] ||
    (CoarseRun(st, steps[..|steps| - 1]) && Coarse(Run(st, steps[..|steps| - 1]).st.leases, steps[|steps| - 1].env.now))
  }

  predicate ParamsFixed(steps: seq<Step>) {
    forall i :: 0 <= i < |steps| ==> !steps[i].event.SetParams?
  }

  /** What a step does to the set of leases. */
  lemma DeliverGrows(env: Env, st: Store, ev: Event)
    requires Good(st) && Timely(st.leases, env.now) && !ev.SetParams?
    requires Creates(ev) && Handle(env, st, ev).Ok? ==> NextUuid(env, st) !in st.leases
    requires Stamped(st.leases) && TimeOrdered(st.leases) && Coarse(st.leases, env.now)
    ensures var st' := Deliver(env, st, ev).st;
            && Stamped(st'.leases) && TimeOrdered(st'.leases) && st'.params == st.params
            && forall v :: v in st'.leases && v !in st.leases ==> st'.leases[v].createdAt == env.now
  {
    hide Good, Stamped, TimeOrdered, Coarse, Timely, AllPersist, UuidV7.Generate;
    DeliverKeepsParams(env, st, ev);
    if Creates(ev) && Handle(env, st, ev).Ok? {
      hide Handle, PriceItems;
      var l := CreationKeeps(env, st, ev);
      CreationKeepsOrder(env, st, l);
    } else {
      KeysAreSteady(env, st, ev);
      DeliverPersists(env, st, ev);
      hide Handle, Deliver;
      PersistingKeepsOrder(st.leases, Deliver(env, st, ev).st.leases);
    }
  }

  /** The queue in front of `u` after one event. */
  lemma EventMakesProgress(env: Env, st: Store, ev: Event, now: Time, u: Uuid)
    requires Good(st) && Timely(st.leases, now) && now <= env.now && !ev.SetParams?
    requires Creates(ev) && Handle(env, st, ev).Ok? ==> NextUuid(env, st) !in st.leases
    requires Stamped(st.leases) && TimeOrdered(st.leases) && Coarse(st.leases, env.now)
    requires u in OverdueLeases(st, now)
    ensures var st' := Deliver(env, st, ev).st;
            u in st'.leases &&
            (st'.leases[u].state == Pending ==>
               && u in OverdueLeases(st', env.now)
               && |Ahead(st', env.now, u)| + (if ev.BlockEnd? then 100 else 0) <= |Ahead(st, now, u)|)
  {
    hide Good, Stamped, TimeOrdered, Coarse, Timely, UuidV7.Generate, Handle, SameGoods, Ahead, Deliver;
    TimePasses(st.leases, now, env.now);
    DeliverGrows(env, st, ev);
    DeliverPersists(env, st, ev);
    var st' := Deliver(env, st, ev).st;
    assert Persists(st.leases[u], st'.leases[u]);
    if ev.BlockEnd? {
      BlockEvent(env, st, u);
      AheadOverTime(st, now, env.now, u);
    } else {
      NobodyJumpsTheQueue(st, now, st', env.now, u);
      SubsetIsSmaller(Ahead(st', env.now, u), Ahead(st, now, u));
    }
  }

  lemma AheadOverTime(st: Store, now: Time, now': Time, u: Uuid)
    requires u in OverdueLeases(st, now) && TimeOrdered(st.leases) && now <= now'
    ensures |Ahead(st, now', u)| <= |Ahead(st, now, u)|
  {
    hide Ahead, TimeOrdered, AllPersist, OverdueLeases;
    AllPersistReflexively(st.leases);
    NobodyJumpsTheQueue(st, now, st, now', u);
    SubsetIsSmaller(Ahead(st, now', u), Ahead(st, now, u));
  }

  lemma BlockEvent(env: Env, st: Store, u: Uuid)
    requires Good(st) && u in OverdueLeases(st, env.now)
    ensures var st' := Deliver(env, st, BlockEnd).st;
            u in st'.leases && (st'.leases[u].state == Pending ==> |Ahead(st', env.now, u)| + 100 <= |Ahead(st, env.now, u)|)
  {
    hide Indexed, EndBlock, OverdueLeases, Ahead, ReservedExactly, NoLegacy;
    BlockMakesProgress(env, st, u);
  }

  /** Everything that holds along the way. */
  ghost predicate Orderly(st: Store, now: Time) {
    Good(st) && Timely(st.leases, now) && Stamped(st.leases) && TimeOrdered(st.leases)
  }

  /** Along any run with fixed parameters, as long as `u` is pending, the leases ahead of it and a
      hundred for every block so far fit into the initial queue. */
  lemma {:induction false} QueueAlongRun(st: Store, now: Time, steps: seq<Step>, u: Uuid)
    requires Orderly(st, now) && FreshRun(st, steps)
    requires Clocked(now, steps) && CoarseRun(st, steps) && ParamsFixed(steps)
    requires u in OverdueLeases(st, now)
    ensures var st' := Run(st, steps).st;
            && Orderly(st', LastTime(now, steps))
            && u in st'.leases
            && (st'.leases[u].state == Pending ==>
                  && u in OverdueLeases(st', LastTime(now, steps))
                  && |Ahead(st', LastTime(now, steps), u)| + 100 * Blocks(steps) <= |Ahead(st, now, u)|)
    decreases |steps|
  {
    hide Good, UuidV7.Generate, Deliver, Timely, Handle, Stamped, TimeOrdered, Coarse, Ahead, AllPersist;
    if steps == [] {
      OverdueIsPending(st, now, u);
    } else {
      var n := |steps| - 1;
      QueueAlongRun(st, now, steps[..n], u);
      RunKeepsGood(st, steps[..n]);
      RunKeepsGood(st, steps);
      var before, t := Run(st, steps[..n]).st, LastTime(now, steps[..n]);
      var env, ev := steps[n].env, steps[n].event;
      TimePasses(before.leases, t, env.now);
      DeliverGrows(env, before, ev);
      DeliverPersists(env, before, ev);
      if before.leases[u].state == Pending {
        EventMakesProgress(env, before, ev, t, u);
      } else {
        PersistsAt(before.leases, Deliver(env, before, ev).st.leases, u);
      }
    }
  }

  lemma OverdueIsPending(st: Store, now: Time, u: Uuid)
    requires u in OverdueLeases(st, now)
    ensures u in st.leases && st.leases[u].state == Pending
  {
  }

  lemma PersistsAt(leases: map<Uuid, Lease>, leases': map<Uuid, Lease>, u: Uuid)
    requires AllPersist(leases, leases') && u in leases
    ensures u in leases' && Persists(leases[u], leases'[u])
    ensures leases[u].state != Pending ==> leases'[u].state != Pending
  {
  }

  /** An overdue lease with `k` overdue leases ahead of it leaves the pending state within
      k / 100 + 1 blocks, whatever else happens in between. */
  lemma OverdueLeaseExpires(st: Store, now: Time, steps: seq<Step>, u: Uuid)
    requires Orderly(st, now) && FreshRun(st, steps)
    requires Clocked(now, steps) && CoarseRun(st, steps) && ParamsFixed(steps)
    requires u in OverdueLeases(st, now)
    requires Blocks(steps) >= |Ahead(st, now, u)| / 100 + 1
    ensures u in Run(st, steps).st.leases && Run(st, steps).st.leases[u].state != Pending
  {
    hide Orderly, Run, Ahead, CoarseRun, Clocked, ParamsFixed, OverdueLeases;
    QueueAlongRun(st, now, steps, u);
  }
}
