/** When a batch succeeds: the checks of the first phase decide, and the second phase cannot
    fail in a store that keeps the invariants. */
module Success {
  import opened Coins
  import opened Types
  import opened Reservations
  import opened Accrual
  import opened DomainIndex
  import opened Ledger
  import opened Invariants
  import opened Lifetime
  import opened Payments
  import Reachable

  // ---------------------------------------------------------------- one lease

  lemma TransferIsCovered(bank: Bank, l: Lease, c: Coins)
    ensures Covers(Balance(bank, Credit(l.tenant)), Meet(c, Available(bank, l)))
  {
    var m := Meet(c, Available(bank, l));
    forall d | d in m ensures AmountOf(Balance(bank, Credit(l.tenant)), d) >= m[d] {
      assert AmountOf(m, d) <= AmountOf(Available(bank, l), d);
    }
  }

  lemma SettleSucceeds(bank: Bank, catalog: Catalog, l: Lease, at: Time, silent: bool)
    requires l.providerUuid in catalog.providers
    requires Overflows(l.items, Sub(at, l.lastSettledAt)) ==> silent
    ensures Settle(bank, catalog, l, at, silent).Ok?
  {
    hide Available, Accrued, Meet, Covers, Overflows, Sub, Balance, Monus, Add;
    var gap := Sub(at, l.lastSettledAt);
    var accrued := if Overflows(l.items, gap) then Available(bank, l) else Accrued(l.items, gap);
    TransferIsCovered(bank, l, accrued);
  }

  lemma ClosingIsTransition(st: Store, bank: Bank, l: Lease, now: Time, reason: string)
    requires l.uuid in st.leases && st.leases[l.uuid] == l && l.state == Active
    ensures Transition(st.(bank := bank), ClosedLease(l, now, reason), DropActive(Release(st, l)))
  {
    hide Reservation;
  }

  lemma FinishSucceeds(st: Store, env: Env, l: Lease, silent: bool, reason: string, wrap: bool)
    requires Indexed(st) && l.uuid in st.leases && st.leases[l.uuid] == l && l.state == Active
    requires Settle(st.bank, env.catalog, l, env.now, silent).Ok?
    ensures Finish(st, env, l, silent, reason, wrap).Ok?
  {
    hide Settle, Move, Exact, SkuExact, Sheltered, Counted, CreditIndexOf, LeasesFiled, AccountsFiled, Transition, Release;
    var bank := Settle(st.bank, env.catalog, l, env.now, silent).value.bank;
    ClosingIsTransition(st, bank, l, env.now, reason);
    MoveSucceeds(st.(bank := bank), ClosedLease(l, env.now, reason), DropActive(Release(st, l)), wrap);
  }

  /** An active lease is either exhausted, and settled silently, or within the accrual limit. */
  lemma SilentWhenNeeded(bank: Bank, l: Lease, now: Time)
    requires l.state == Active && l.lastSettledAt <= now
    ensures ShouldAutoClose(bank, l, now).Ok?
    ensures Overflows(l.items, Sub(now, l.lastSettledAt)) ==> ShouldAutoClose(bank, l, now).value
  {
    hide Accrued, Available;
  }

  /** A lease that may be closed or withdrawn from at `now`. */
  predicate Settleable(env: Env, l: Lease) {
    l.providerUuid in env.catalog.providers && TimelyLease(l, env.now)
  }

  lemma CloseSucceeds(st: Store, env: Env, l: Lease, reason: string)
    requires Indexed(st) && l.uuid in st.leases && st.leases[l.uuid] == l && l.state == Active && Settleable(env, l)
    ensures CloseOne(st, env, l, reason).Ok?
  {
    SilentWhenNeeded(st.bank, l, env.now);
    hide Indexed, Finish, Settle, ShouldAutoClose, Overflows;
    var exhausted := ShouldAutoClose(st.bank, l, env.now).value;
    SettleSucceeds(st.bank, env.catalog, l, env.now, exhausted);
    FinishSucceeds(st, env, l, exhausted, if exhausted then CREDIT_EXHAUSTED else reason, true);
  }

  lemma NoGapNoOverflow(l: Lease, at: Time)
    requires at <= l.lastSettledAt
    ensures !Overflows(l.items, Sub(at, l.lastSettledAt))
  {
  }

  lemma SettledWriteSucceeds(st: Store, bank: Bank, l: Lease, at: Time)
    requires Indexed(st) && l.uuid in st.leases && st.leases[l.uuid] == l
    ensures SetLease(st.(bank := bank), l.(lastSettledAt := at)).Ok?
  {
    hide Exact, SkuExact, Sheltered, Counted, Keyed, SetLease;
    assert Claims(l.(lastSettledAt := at)) == Claims(l);
    hide Claims;
    RewriteSucceeds(st.(bank := bank), l.(lastSettledAt := at));
  }

  lemma WithdrawSucceeds(st: Store, env: Env, l: Lease)
    requires Indexed(st) && l.uuid in st.leases && st.leases[l.uuid] == l && Settleable(env, l)
    ensures WithdrawOne(st, env, l).Ok?
  {
    hide Indexed, Finish, Settle, SetLease, Overflows, Exhausted;
    var at := SettleTime(l, env.now);
    if l.state == Active {
      SilentWhenNeeded(st.bank, l, env.now);
      if ShouldAutoClose(st.bank, l, env.now).value {
        SettleSucceeds(st.bank, env.catalog, l, env.now, true);
        FinishSucceeds(st, env, l, true, CREDIT_EXHAUSTED, false);
      }
    } else {
      NoGapNoOverflow(l, at);
    }
    if ShouldAutoClose(st.bank, l, env.now) == Ok(false) {
      SettleSucceeds(st.bank, env.catalog, l, at, false);
      SettledWriteSucceeds(st, Settle(st.bank, env.catalog, l, at, false).value.bank, l, at);
    }
  }

  // ---------------------------------------------------------------- batches

  /** What the first phase of a handler has established about each lease. */
  predicate Ready(op: Op, env: Env, l: Lease) {
    match op
    case OpAcknowledge => l.state == Pending
    case OpReject(_) => l.state == Pending
    case OpClose(_) => l.state == Active && Settleable(env, l)
    case OpWithdraw => Settleable(env, l)
    case OpSweep => true
    case OpExpire => true
  }

  lemma AcknowledgingIsTransition(st: Store, l: Lease, now: Time, reason: string)
    requires l.uuid in st.leases && st.leases[l.uuid] == l && l.state == Pending
    ensures Transition(st, Acknowledged(l, now), Promote)
    ensures Transition(st, RejectedLease(l, now, reason), DropPending(Release(st, l)))
  {
    hide Reservation;
  }

  lemma PendingStepSucceeds(st: Store, l: Lease, now: Time, reason: string)
    requires Indexed(st) && l.uuid in st.leases && st.leases[l.uuid] == l && l.state == Pending
    ensures AcknowledgeOne(st, now, l).Ok? && RejectOne(st, now, l, reason).Ok?
  {
    hide Move, Exact, SkuExact, Sheltered, Counted, CreditIndexOf, LeasesFiled, AccountsFiled, Transition, Release;
    AcknowledgingIsTransition(st, l, now, reason);
    MoveSucceeds(st, Acknowledged(l, now), Promote, true);
    MoveSucceeds(st, RejectedLease(l, now, reason), DropPending(Release(st, l)), true);
  }

  lemma OneSucceeds(op: Op, env: Env, st: Store, u: Uuid)
    requires Indexed(st) && u in st.leases && Ready(op, env, st.leases[u])
    ensures One(op, env, st, u).Ok?
  {
    hide Indexed, AcknowledgeOne, RejectOne, CloseOne, WithdrawOne, SweepOne, ExpireOne, Settleable;
    FiledUnderKey(st, u);
    var l := st.leases[u];
    match op
    case OpAcknowledge => PendingStepSucceeds(st, l, env.now, "");
    case OpReject(reason) => PendingStepSucceeds(st, l, env.now, reason);
    case OpClose(reason) => CloseSucceeds(st, env, l, reason);
    case OpWithdraw => WithdrawSucceeds(st, env, l);
    case OpSweep =>
    case OpExpire =>
  }

  predicate AllReady(op: Op, env: Env, leases: map<Uuid, Lease>, us: seq<Uuid>) {
    forall u :: u in us ==> u in leases && Ready(op, env, leases[u])
  }

  /** A batch of distinct leases that passed the checks succeeds as a whole. */
  lemma {:induction false} BatchSucceeds(op: Op, env: Env, st: Store, us: seq<Uuid>)
    requires Indexed(st) && Distinct(us) && AllReady(op, env, st.leases, us)
    ensures Batch(op, env, st, us).Ok?
    decreases |us|
  {
    hide Indexed, One, Ready, ReservedExactly, Reachable.OnlyEvolved;
    if us != [] {
      var n := |us| - 1;
      assert forall u :: u in us[..n] ==> u in us;
      BatchSucceeds(op, env, st, us[..n]);
      Reachable.BatchIsKept(op, env, st, us[..n]);
      BatchLeavesOthers(op, env, st, us[..n], us[n]);
      assert us[n] in us;
      OneSucceeds(op, env, Batch(op, env, st, us[..n]).value.st, us[n]);
    }
  }

  // ---------------------------------------------------------------- the handlers' checks decide

  lemma {:induction false} PendingChecked(st: Store, us: seq<Uuid>)
    requires PendingProvider(st, us).Ok?
    ensures forall u :: u in us ==> u in st.leases && st.leases[u].state == Pending
    decreases |us|
  {
    if us != [] {
      PendingChecked(st, us[..|us| - 1]);
      assert forall u :: u in us ==> u in us[..|us| - 1] || u == us[|us| - 1];
    }
  }

  lemma {:induction false} CancelChecked(st: Store, tenant: Address, us: seq<Uuid>)
    requires CheckCancel(st, tenant, us).Ok?
    ensures forall u :: u in us ==> u in st.leases && st.leases[u].state == Pending
    decreases |us|
  {
    if us != [] {
      CancelChecked(st, tenant, us[..|us| - 1]);
      assert forall u :: u in us ==> u in us[..|us| - 1] || u == us[|us| - 1];
    }
  }

  lemma {:induction false} CloseChecked(env: Env, st: Store, sender: Address, us: seq<Uuid>)
    requires CloseRole(env, st, sender, us).Ok?
    ensures forall u :: u in us ==> u in st.leases && st.leases[u].state == Active
    decreases |us|
  {
    hide RoleFor;
    if us != [] {
      CloseChecked(env, st, sender, us[..|us| - 1]);
      assert forall u :: u in us ==> u in us[..|us| - 1] || u == us[|us| - 1];
    }
  }

  /** Acknowledging and rejecting succeed exactly when the first phase accepts. */
  lemma PendingChecksDecide(env: Env, st: Store, sender: Address, us: seq<Uuid>, reason: string)
    requires Indexed(st)
    ensures var accepted := ValidBatch(us) && PendingProvider(st, us).Ok? && AuthorizeProvider(env, sender, PendingProvider(st, us).value).Ok?;
            && (AcknowledgeLease(env, st, sender, us).Ok? <==> accepted)
            && (RejectLease(env, st, sender, us, reason).Ok? <==> accepted && |reason| <= MAX_REASON_LENGTH)
  {
    assert ValidBatch(us) ==> Distinct(us);
    hide Indexed, ValidBatch, PendingProvider, AuthorizeProvider, Batch, Distinct;
    if ValidBatch(us) && PendingProvider(st, us).Ok? {
      PendingChecked(st, us);
      BatchSucceeds(OpAcknowledge, env, st, us);
      BatchSucceeds(OpReject(reason), env, st, us);
    }
  }

  lemma CancelChecksDecide(env: Env, st: Store, tenant: Address, us: seq<Uuid>)
    requires Indexed(st)
    ensures CancelLease(env, st, tenant, us).Ok? <==> ValidBatch(us) && CheckCancel(st, tenant, us).Ok? && tenant in st.accounts
  {
    assert ValidBatch(us) ==> Distinct(us);
    hide Indexed, ValidBatch, CheckCancel, Batch, Distinct;
    if ValidBatch(us) && CheckCancel(st, tenant, us).Ok? {
      CancelChecked(st, tenant, us);
      BatchSucceeds(OpReject(CANCELLED_BY_TENANT), env, st, us);
    }
  }

  lemma ActiveIsReady(env: Env, st: Store, sender: Address, us: seq<Uuid>, reason: string)
    requires Timely(st.leases, env.now) && CloseRole(env, st, sender, us).Ok?
    requires forall u :: u in us && u in st.leases ==> st.leases[u].providerUuid in env.catalog.providers
    ensures AllReady(OpClose(reason), env, st.leases, us)
  {
    hide CloseRole, TimelyLease;
    CloseChecked(env, st, sender, us);
  }

  /** Closing succeeds exactly when the first phase accepts, provided the leases' providers exist. */
  lemma CloseChecksDecide(env: Env, st: Store, sender: Address, us: seq<Uuid>, reason: string)
    requires Indexed(st) && Timely(st.leases, env.now)
    requires forall u :: u in us && u in st.leases ==> st.leases[u].providerUuid in env.catalog.providers
    ensures CloseLease(env, st, sender, us, reason).Ok? <==>
            ValidBatch(us) && |reason| <= MAX_REASON_LENGTH && CloseRole(env, st, sender, us).Ok?
  {
    assert ValidBatch(us) ==> Distinct(us);
    hide Indexed, ValidBatch, CloseRole, Batch, Distinct, Timely, AllReady;
    if ValidBatch(us) && CloseRole(env, st, sender, us).Ok? {
      ActiveIsReady(env, st, sender, us, reason);
      BatchSucceeds(OpClose(reason), env, st, us);
    }
  }

  // ---------------------------------------------------------------- what a batch draws

  lemma SweepSucceeds(st: Store, env: Env, l: Lease)
    requires Indexed(st) && l.uuid in st.leases && st.leases[l.uuid] == l && Settleable(env, l)
    ensures SweepOne(st, env, l).Ok?
  {
    hide Indexed, Finish, Settle, SetLease, Overflows, Exhausted;
    var at := SettleTime(l, env.now);
    SettleSucceeds(st.bank, env.catalog, l, at, true);
    SettledWriteSucceeds(st, Settle(st.bank, env.catalog, l, at, true).value.bank, l, at);
    if l.state == Active {
      SilentWhenNeeded(st.bank, l, env.now);
      FinishSucceeds(st, env, l, true, CREDIT_EXHAUSTED, false);
    }
  }

  /** Ready and, in a sweep too, sure to be settled rather than passed over. */
  predicate Charged(op: Op, env: Env, l: Lease) {
    Ready(op, env, l) && Settleable(env, l) && Chargeable(env.catalog, l, env.now)
  }

  predicate AllCharged(op: Op, env: Env, leases: map<Uuid, Lease>, us: seq<Uuid>) {
    forall u :: u in us ==> u in leases && Charged(op, env, leases[u])
  }

  lemma ChargedStepSucceeds(op: Op, env: Env, st: Store, u: Uuid)
    requires Indexed(st) && Charges(op) && u in st.leases && Charged(op, env, st.leases[u])
    ensures Strict(op, env, st, u).Ok?
  {
    hide Indexed, CloseOne, WithdrawOne, SweepOne, Settleable, Chargeable;
    FiledUnderKey(st, u);
    var l := st.leases[u];
    match op
    case OpClose(reason) => CloseSucceeds(st, env, l, reason);
    case OpWithdraw => WithdrawSucceeds(st, env, l);
    case OpSweep => SweepSucceeds(st, env, l);
  }

  lemma ChargedIsChargeable(op: Op, env: Env, l: Lease)
    requires Charged(op, env, l)
    ensures Chargeable(env.catalog, l, env.now) && Ready(op, env, l)
  {
  }

  lemma MinOfNothing(n: nat)
    ensures Min(n, 0) == 0
  {
  }

  lemma ChargedPrefix(op: Op, env: Env, leases: map<Uuid, Lease>, us: seq<Uuid>)
    requires us != [] && Distinct(us) && AllCharged(op, env, leases, us)
    ensures var n := |us| - 1;
            && Distinct(us[..n]) && us[n] !in us[..n] && AllCharged(op, env, leases, us[..n])
            && us[n] in leases && Charged(op, env, leases[us[n]])
  {
    hide Charged;
    var n := |us| - 1;
    assert us[n] in us && forall u :: u in us[..n] ==> u in us;
  }

  /** A close, a withdrawal and a provider-wide sweep alike draw, per tenant and denomination,
      the smaller of the sum of the charges and the starting balance. */
  lemma {:induction false} ChargedBatchDraws(op: Op, env: Env, st: Store, us: seq<Uuid>, t: Address, d: string)
    requires Indexed(st) && Charges(op) && Distinct(us) && AllCharged(op, env, st.leases, us)
    ensures Batch(op, env, st, us).Ok?
    ensures Holding(Batch(op, env, st, us).value.st.bank, Credit(t), d) ==
            Holding(st.bank, Credit(t), d) - Min(Holding(st.bank, Credit(t), d), ChargeSum(st.leases, us, t, d, env.now))
    decreases |us|
  {
    MinOfNothing(Holding(st.bank, Credit(t), d));
    hide Indexed, One, Strict, Holding, Charge, Charged, ReservedExactly, Reachable.OnlyEvolved, Min, Distinct, AllCharged;
    if us != [] {
      var n := |us| - 1;
      ChargedPrefix(op, env, st.leases, us);
      ChargedBatchDraws(op, env, st, us[..n], t, d);
      var before := Batch(op, env, st, us[..n]).value;
      Reachable.BatchIsKept(op, env, st, us[..n]);
      BatchLeavesOthers(op, env, st, us[..n], us[n]);
      ChargedIsChargeable(op, env, st.leases[us[n]]);
      ChargedStepSucceeds(op, env, before.st, us[n]);
      OneDraws(op, env, before.st, us[n], t, d);
      MinStep(Holding(st.bank, Credit(t), d), ChargeSum(st.leases, us[..n], t, d, env.now),
              if st.leases[us[n]].tenant == t then AmountOf(Charge(st.leases[us[n]], env.now), d) else 0);
    }
  }

  /** Every order of such a batch succeeds and leaves every credit account with the same balance. */
  lemma OrderDecidesNothing(op: Op, env: Env, st: Store, us: seq<Uuid>, vs: seq<Uuid>, t: Address, d: string)
    requires Indexed(st) && Charges(op) && Distinct(us) && Distinct(vs) && multiset(us) == multiset(vs)
    requires AllCharged(op, env, st.leases, us)
    ensures Batch(op, env, st, us).Ok? && Batch(op, env, st, vs).Ok?
    ensures Holding(Batch(op, env, st, us).value.st.bank, Credit(t), d) == Holding(Batch(op, env, st, vs).value.st.bank, Credit(t), d)
  {
    hide Indexed, Batch, Charged, Holding, Distinct, ChargeSum;
    forall u | u in vs ensures u in us { assert u in multiset(vs); }
    ChargedBatchDraws(op, env, st, us, t, d);
    ChargedBatchDraws(op, env, st, vs, t, d);
    ChargeSumPermuted(st.leases, us, vs, t, d, env.now);
  }
}
