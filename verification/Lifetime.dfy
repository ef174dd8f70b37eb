/** The life of a lease: what never changes, which way its state moves, and how its timestamps
    relate to each other and to block time. */
module Lifetime {
  import opened Coins
  import opened Types
  import opened Accrual
  import opened Ledger
  import opened Invariants
  import opened Reachable
  import opened Names
  import UuidV7

  // ---------------------------------------------------------------- timestamps

  /** Creation, acknowledgement, last settlement and now come in this order; a closed lease was
      settled up to its closing time. */
  predicate TimelyLease(l: Lease, now: Time) {
    && l.createdAt <= l.lastSettledAt <= now
    && (l.state == Pending ==> l.lastSettledAt == l.createdAt)
    && (l.state == Active || l.state == Closed ==>
          l.acknowledgedAt.Some? && l.createdAt <= l.acknowledgedAt.value <= l.lastSettledAt)
    && (if l.state == Closed then l.closedAt == Some(l.lastSettledAt) else l.closedAt == None)
    && l.state != Unspecified
  }

  predicate Timely(leases: map<Uuid, Lease>, now: Time) {
    forall u :: u in leases ==> TimelyLease(leases[u], now)
  }

  lemma TimePasses(leases: map<Uuid, Lease>, now: Time, now': Time)
    requires Timely(leases, now) && now <= now'
    ensures Timely(leases, now')
  {
  }

  /** With timely leases a settled terminal lease owes nothing: no step of any batch touches it. */
  lemma TerminalIsFrozen(op: Op, env: Env, st: Store, u: Uuid)
    requires u in st.leases && Terminal(st.leases[u]) && TimelyLease(st.leases[u], env.now)
    ensures One(op, env, st, u).Ok? ==> One(op, env, st, u).value == Out(st, [])
  {
    hide Move, SetLease, Finish, Exhausted, Accrued, Available, Send;
    var l := st.leases[u];
    assert SettleTime(l, env.now) == l.lastSettledAt;
  }

  lemma FinishWrites(st: Store, env: Env, l: Lease, silent: bool, reason: string, wrap: bool)
    requires Indexed(st) && l.uuid in st.leases && st.leases[l.uuid] == l && l.state == Active
    requires TimelyLease(l, env.now) && Timely(st.leases, env.now)
    requires Finish(st, env, l, silent, reason, wrap).Ok?
    ensures Timely(Finish(st, env, l, silent, reason, wrap).value.st.leases, env.now)
  {
    hide Indexed, Finish, Kept;
    FinishIsKept(st, env, l, silent, reason, wrap);
    assert TimelyLease(ClosedLease(l, env.now, reason), env.now);
    hide TimelyLease;
  }

  lemma SettledWrites(st: Store, bank: Bank, l: Lease, at: Time, now: Time)
    requires Indexed(st) && l.uuid in st.leases && st.leases[l.uuid] == l
    requires Timely(st.leases, now) && (at == l.lastSettledAt || (l.state == Active && at == now))
    requires SetLease(st.(bank := bank), l.(lastSettledAt := at)).Ok?
    ensures Timely(SetLease(st.(bank := bank), l.(lastSettledAt := at)).value.leases, now)
  {
    hide Indexed, SetLease, Kept;
    SettledIsKept(st, bank, l, at);
    assert TimelyLease(l.(lastSettledAt := at), now);
    hide TimelyLease;
  }

  lemma OneStaysTimely(op: Op, env: Env, st: Store, u: Uuid)
    requires Indexed(st) && Timely(st.leases, env.now) && One(op, env, st, u).Ok?
    ensures Timely(One(op, env, st, u).value.st.leases, env.now)
  {
    hide Indexed, Kept, Settle, Move, SetLease, Finish, Exhausted, AcknowledgeOne, RejectOne, ExpireOne, Timely;
    if Strict(op, env, st, u).Ok? {
      FiledUnderKey(st, u);
      var l := st.leases[u];
      TimelyAt(st.leases, u, env.now);
      match op
      case OpAcknowledge => PendingWrites(st, env.now, l, "");
      case OpReject(reason) => PendingWrites(st, env.now, l, reason);
      case OpExpire => PendingWrites(st, env.now, l, "");
      case OpClose(reason) =>
        var exhausted := ShouldAutoClose(st.bank, l, env.now).value;
        FinishWrites(st, env, l, exhausted, if exhausted then CREDIT_EXHAUSTED else reason, true);
      case OpWithdraw =>
        if ShouldAutoClose(st.bank, l, env.now).value {
          FinishWrites(st, env, l, true, CREDIT_EXHAUSTED, false);
        } else {
          var at := SettleTime(l, env.now);
          var s := Settle(st.bank, env.catalog, l, at, false).value;
          if s.accrued != NO_COINS { SettledWrites(st, s.bank, l, at, env.now); }
        }
      case OpSweep =>
        if ShouldAutoClose(st.bank, l, env.now).value {
          FinishWrites(st, env, l, true, CREDIT_EXHAUSTED, false);
        } else {
          var at := SettleTime(l, env.now);
          if at > l.lastSettledAt {
            var s := Settle(st.bank, env.catalog, l, at, true).value;
            if s.transfer != NO_COINS { SettledWrites(st, s.bank, l, at, env.now); }
          }
        }
    }
  }

  lemma TimelyAt(leases: map<Uuid, Lease>, u: Uuid, now: Time)
    requires Timely(leases, now) && u in leases
    ensures TimelyLease(leases[u], now)
  {
  }

  lemma PendingWrites(st: Store, now: Time, l: Lease, reason: string)
    requires Indexed(st) && l.uuid in st.leases && st.leases[l.uuid] == l && Timely(st.leases, now)
    ensures AcknowledgeOne(st, now, l).Ok? ==> Timely(AcknowledgeOne(st, now, l).value.st.leases, now)
    ensures RejectOne(st, now, l, reason).Ok? ==> Timely(RejectOne(st, now, l, reason).value.st.leases, now)
    ensures ExpireOne(st, now, l).Ok? ==> Timely(ExpireOne(st, now, l).value.st.leases, now)
  {
    hide Indexed, Kept, AcknowledgeOne, RejectOne, ExpireOne;
    AcknowledgeNeedsPending(st, now, l, reason);
    if l.state == Pending {
      PendingStepIsKept(st, now, l, reason);
      assert TimelyLease(Acknowledged(l, now), now);
      assert TimelyLease(RejectedLease(l, now, reason), now);
      assert TimelyLease(ExpiredLease(l, now), now);
      hide TimelyLease;
    }
  }

  // ---------------------------------------------------------------- what persists

  predicate SameGood(a: LeaseItem, b: LeaseItem) {
    a.skuUuid == b.skuUuid && a.quantity == b.quantity && a.lockedPrice == b.lockedPrice && a.serviceName == b.serviceName
  }

  predicate SameGoods(a: seq<LeaseItem>, b: seq<LeaseItem>) {
    |a| == |b| && forall i :: 0 <= i < |a| ==> SameGood(a[i], b[i])
  }

  /** How a lease may differ at a later time: only custom domains, state and settlement data
      move, the state only forward, and a terminal lease not at all. */
  predicate Persists(l: Lease, l': Lease) {
    && l'.uuid == l.uuid && l'.tenant == l.tenant && l'.providerUuid == l.providerUuid
    && l'.createdAt == l.createdAt && l'.metaHash == l.metaHash
    && l'.minLeaseDurationAtCreation == l.minLeaseDurationAtCreation
    && SameGoods(l.items, l'.items)
    && (MayBecome(l.state, l'.state) || (l.state == Pending && l'.state == Closed))
    && (Terminal(l) ==> l' == l)
  }

  predicate AllPersist(leases: map<Uuid, Lease>, leases': map<Uuid, Lease>) {
    forall u :: u in leases ==> u in leases' && Persists(leases[u], leases'[u])
  }

  lemma PersistsTransitively(a: Lease, b: Lease, c: Lease)
    requires Persists(a, b) && Persists(b, c)
    ensures Persists(a, c)
  {
  }

  lemma AllPersistTransitively(a: map<Uuid, Lease>, b: map<Uuid, Lease>, c: map<Uuid, Lease>)
    requires AllPersist(a, b) && AllPersist(b, c)
    ensures AllPersist(a, c)
  {
    forall u | u in a ensures u in c && Persists(a[u], c[u]) {
      PersistsTransitively(a[u], b[u], c[u]);
    }
  }

  lemma AllPersistReflexively(leases: map<Uuid, Lease>)
    ensures AllPersist(leases, leases)
  {
  }

  lemma OnePersists(op: Op, env: Env, st: Store, u: Uuid)
    requires Indexed(st) && Timely(st.leases, env.now) && One(op, env, st, u).Ok?
    ensures AllPersist(st.leases, One(op, env, st, u).value.st.leases)
  {
    hide One, Indexed, ReservedExactly, AllPersist, Evolves;
    OneIsKept(op, env, st, u);
    var st' := One(op, env, st, u).value.st;
    AllPersistReflexively(st.leases);
    if u in st.leases && Terminal(st.leases[u]) {
      TerminalIsFrozen(op, env, st, u);
    } else if st'.leases != st.leases {
      EvolvedPersists(st.leases, u, st'.leases[u]);
    }
  }

  lemma EvolvedPersists(leases: map<Uuid, Lease>, u: Uuid, l': Lease)
    requires u in leases && !Terminal(leases[u]) && Evolves(leases[u], l')
    ensures AllPersist(leases, leases[u := l'])
  {
  }

  lemma {:induction false} BatchPersists(op: Op, env: Env, st: Store, us: seq<Uuid>)
    requires Indexed(st) && Timely(st.leases, env.now) && Batch(op, env, st, us).Ok?
    ensures AllPersist(st.leases, Batch(op, env, st, us).value.st.leases)
    ensures Timely(Batch(op, env, st, us).value.st.leases, env.now)
    decreases |us|
  {
    hide Indexed, One, Timely, AllPersist, OnlyEvolved, ReservedExactly;
    if us == [] {
      AllPersistReflexively(st.leases);
    } else {
      var n := |us| - 1;
      BatchPersists(op, env, st, us[..n]);
      BatchIsKept(op, env, st, us[..n]);
      var before := Batch(op, env, st, us[..n]).value.st;
      OnePersists(op, env, before, us[n]);
      OneStaysTimely(op, env, before, us[n]);
      AllPersistTransitively(st.leases, before.leases, One(op, env, before, us[n]).value.st.leases);
    }
  }

  lemma RelabelledPersists(leases: map<Uuid, Lease>, u: Uuid, service: string, domain: string, leases': map<Uuid, Lease>, now: Time)
    requires Relabelled(leases, u, service, domain, leases') && Timely(leases, now)
    ensures AllPersist(leases, leases') && Timely(leases', now)
  {
    hide IsOnly;
  }

  lemma FreshPersists(leases: map<Uuid, Lease>, l: Lease, now: Time)
    requires l.uuid !in leases && Timely(leases, now) && TimelyLease(l, now)
    ensures AllPersist(leases, leases[l.uuid := l]) && Timely(leases[l.uuid := l], now)
  {
  }

  lemma CreationPersists(env: Env, st: Store, ev: Event)
    requires Good(st) && Timely(st.leases, env.now) && Creates(ev) && Handle(env, st, ev).Ok? && NextUuid(env, st) !in st.leases
    ensures AllPersist(st.leases, Handle(env, st, ev).value.st.leases) && Timely(Handle(env, st, ev).value.st.leases, env.now)
  {
    hide Good, Handle, UuidV7.Generate, PriceItems, Timely, AllPersist;
    var l := CreationKeeps(env, st, ev);
    FreshPersists(st.leases, l, env.now);
  }

  /** One event at block time `env.now`, which is not before anything recorded. */
  lemma DeliverPersists(env: Env, st: Store, ev: Event)
    requires Good(st) && Timely(st.leases, env.now)
    requires Creates(ev) && Handle(env, st, ev).Ok? ==> NextUuid(env, st) !in st.leases
    ensures AllPersist(st.leases, Deliver(env, st, ev).st.leases)
    ensures Timely(Deliver(env, st, ev).st.leases, env.now)
  {
    hide Indexed, ReservedExactly, NoLegacy, FundCredit, SetItemCustomDomain, UuidV7.Generate, CreateLease, CreateLeaseForTenant, EndBlock, WithdrawAll, WithdrawLeases, CloseLease, CancelLease, RejectLease, AcknowledgeLease, Batch, BatchTargets, Relabelled, Timely, AllPersist, UpdateParams;
    AllPersistReflexively(st.leases);
    if Handle(env, st, ev).Ok? {
      var st' := Handle(env, st, ev).value.st;
      if IsBatch(ev) {
        HandleIsBatch(env, st, ev);
        BatchPersists(BatchOp(ev), env, st, BatchTargets(env, st, ev));
      } else if Creates(ev) {
        CreationPersists(env, st, ev);
      } else if ev.Fund? {
        FundKeeps(st, ev.sender, ev.tenant, ev.amount);
      } else if ev.SetDomain? {
        SetDomainKeeps(env, st, ev.sender, ev.uuid, ev.service, ev.domain);
        if st' != st {
          RelabelledPersists(st.leases, ev.uuid, ev.service, Normalize(ev.domain), st'.leases, env.now);
        }
      } else if ev.SetParams? {
        ParamsOnly(env, st, ev.sender, ev.params);
      }
    }
  }

  lemma ParamsOnly(env: Env, st: Store, sender: Address, params: Params)
    ensures UpdateParams(env, st, sender, params).Ok? ==> UpdateParams(env, st, sender, params).value.st == st.(params := params)
  {
    hide ValidParams;
  }

  function LastTime(now: Time, steps: seq<Step>): Time {
    if steps == [] then now else steps[|steps| - 1].env.now
  }

  /** Block time never runs backwards, starting from `now`. */
  predicate Clocked(now: Time, steps: seq<Step>) {
    steps == [] ||
    (Clocked(now, steps[..|steps| - 1]) && LastTime(now, steps[..|steps| - 1]) <= steps[|steps| - 1].env.now)
  }

  /** Over a whole run: the terms of a lease never change, its state only moves forward, a
      terminal lease is never modified again, and the timestamps stay in order. */
  lemma {:induction false} RunPersists(st: Store, now: Time, steps: seq<Step>)
    requires Good(st) && FreshRun(st, steps)
    requires Timely(st.leases, now) && Clocked(now, steps)
    ensures AllPersist(st.leases, Run(st, steps).st.leases)
    ensures Timely(Run(st, steps).st.leases, LastTime(now, steps))
    decreases |steps|
  {
    hide Good, UuidV7.Generate, Deliver, Timely, AllPersist, Handle;
    if steps == [] {
      AllPersistReflexively(st.leases);
    } else {
      var n := |steps| - 1;
      RunPersists(st, now, steps[..n]);
      RunKeepsGood(st, steps[..n]);
      var before := Run(st, steps[..n]).st;
      TimePasses(before.leases, LastTime(now, steps[..n]), steps[n].env.now);
      DeliverPersists(steps[n].env, before, steps[n].event);
      AllPersistTransitively(st.leases, before.leases, Deliver(steps[n].env, before, steps[n].event).st.leases);
    }
  }
}
